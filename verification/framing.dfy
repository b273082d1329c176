/**
  Cutting a byte stream into lines.  `Lines` and `Rest` say what every
  incremental framer of the gateway must hand on and keep, whatever the sizes
  of the pieces the network delivers.
 */
module Framing {
  import opened Bytes
  import opened Sequences

  /** The complete lines of `s`, without their newlines. */
  function Lines(s: bytes): (lines: seq<bytes>)
    decreases |s|
  {
    var i := IndexByte(s, '\n');
    if i == |s| then [] else [s[..i]] + Lines(s[i + 1..])
  }

  /** What follows the last newline. */
  function Rest(s: bytes): bytes
    decreases |s|
  {
    var i := IndexByte(s, '\n');
    if i == |s| then s else Rest(s[i + 1..])
  }

  function Unlines(lines: seq<bytes>): bytes {
    if lines == [] then "" else lines[0] + "\n" + Unlines(lines[1..])
  }

  predicate NoNewlines(lines: seq<bytes>) {
    forall i :: 0 <= i < |lines| ==> '\n' !in lines[i]
  }

  /** Lines and rest put back together are the stream, and contain no stray newline. */
  lemma {:induction false} Reassemble(s: bytes)
    ensures Unlines(Lines(s)) + Rest(s) == s
    ensures NoNewlines(Lines(s)) && '\n' !in Rest(s)
    decreases |s|
  {
    var i := IndexByte(s, '\n');
    if i == |s| {
      EmptyFirst(s);
    } else {
      var first, later := s[..i], s[i + 1..];
      Reassemble(later);
      CutAt(s, i);
      UnlinesCons(first, Lines(later));
      Associates(first + "\n", Unlines(Lines(later)), Rest(later));
    }
  }

  lemma CutAt(s: bytes, i: nat)
    requires i < |s| && s[i] == '\n'
    ensures s == s[..i] + "\n" + s[i + 1..]
  {
  }

  lemma UnlinesCons(line: bytes, lines: seq<bytes>)
    ensures Unlines([line] + lines) == line + "\n" + Unlines(lines)
  {
    assert ([line] + lines)[1..] == lines;
  }

  /** There is only one way to do that. */
  lemma {:induction false} OnlySplit(lines: seq<bytes>, rest: bytes)
    requires NoNewlines(lines) && '\n' !in rest
    ensures Lines(Unlines(lines) + rest) == lines && Rest(Unlines(lines) + rest) == rest
  {
    var s := Unlines(lines) + rest;
    if lines == [] {
      assert s == rest;
      IndexByteIs(s, '\n', |s|);
    } else {
      var i := |lines[0]|;
      assert s[..i] == lines[0] && s[i + 1..] == Unlines(lines[1..]) + rest;
      IndexByteIs(s, '\n', i);
      OnlySplit(lines[1..], rest);
    }
  }

  /** Reading in two pieces: the second piece is framed behind what the first left over. */
  lemma {:induction false} LinesAppend(a: bytes, b: bytes)
    ensures Lines(a + b) == Lines(a) + Lines(Rest(a) + b)
    ensures Rest(a + b) == Rest(Rest(a) + b)
    decreases |a|
  {
    var i := IndexByte(a, '\n');
    if i < |a| {
      var first, later := a[..i], a[i + 1..];
      IndexByteIs(a + b, '\n', i);
      SameCut(a, b, i);
      LinesAppend(later, b);
      Associates([first], Lines(later), Lines(Rest(later) + b));
    } else {
      assert [] + Lines(a + b) == Lines(a + b);
    }
  }

  lemma SameCut(a: bytes, b: bytes, i: nat)
    requires i < |a|
    ensures (a + b)[..i] == a[..i] && (a + b)[i + 1..] == a[i + 1..] + b && (a + b)[i] == a[i]
  {
  }

  lemma {:induction false} SplitIsLines(s: bytes)
    ensures Split(s, '\n') == Lines(s) + [Rest(s)]
    decreases |s|
  {
    var i := IndexByte(s, '\n');
    if i == |s| {
      EmptyFirst([s]);
    } else {
      SplitIsLines(s[i + 1..]);
      OneMoreLine(s[..i], Split(s[i + 1..], '\n'), Lines(s[i + 1..]), Rest(s[i + 1..]));
    }
  }

  lemma OneMoreLine(line: bytes, parts: seq<bytes>, lines: seq<bytes>, rest: bytes)
    requires parts == lines + [rest]
    ensures [line] + parts == ([line] + lines) + [rest]
  {
  }

  lemma NoLineYet(s: bytes)
    requires '\n' !in s
    ensures Lines(s) == [] && Rest(s) == s
  {
    IndexByteIs(s, '\n', |s|);
  }
}
