/**
  The Redis wire format (RESP): the frames the client writes and the replies it
  reads back, byte for byte.
 */
module Resp {
  import opened Bytes
  import opened Sequences

  const CRLF: bytes := "\r\n"

  const MAX_INT: int := 0x7FFF_FFFF_FFFF_FFFF

  datatype Outcome =
    | Reply(text: bytes)
    | ErrorReply(message: bytes)
    | NilReply
    | BrokenStream        // the connection ended inside the reply
    | BadNumber           // the length is not a number
    | NegativeLength      // the length is below -1, which aborts the read
    | UnknownType

  // ----- Encoding.

  function BulkFrame(a: bytes): bytes {
    "$" + Itoa(|a|) + CRLF + a + CRLF
  }

  function Frames(args: seq<bytes>): bytes {
    if args == [] then "" else BulkFrame(args[0]) + Frames(args[1..])
  }

  lemma {:induction false} FramesAppend(a: seq<bytes>, b: seq<bytes>)
    ensures Frames(a + b) == Frames(a) + Frames(b)
  {
    if a == [] {
      assert a + b == b;
    } else {
      assert (a + b)[1..] == a[1..] + b;
      FramesAppend(a[1..], b);
      Associates(BulkFrame(a[0]), Frames(a[1..]), Frames(b));
    }
  }

  method Encode(args: seq<bytes>) returns (b: bytes)
    ensures b == "*" + Itoa(|args|) + CRLF + Frames(args)
  {
    b := "*" + Itoa(|args|) + CRLF;
    ghost var head := b;
    for i := 0 to |args|
      invariant b == head + Frames(args[..i])
    {
      FramesAppend(args[..i], [args[i]]);
      assert args[..i + 1] == args[..i] + [args[i]];
      assert [args[i]][1..] == [] && Frames([args[i]]) == BulkFrame(args[i]) + "";
      Associates(head, Frames(args[..i]), BulkFrame(args[i]));
      b := b + BulkFrame(args[i]);
    }
    assert args[..|args|] == args;
  }

  /** A frame on the wire. */
  lemma FrameIs(a: bytes)
    ensures Frames([a]) == "$" + Itoa(|a|) + "\r\n" + a + "\r\n"
  {
    assert [a][1..] == [] && BulkFrame(a) + "" == BulkFrame(a);
  }

  // ----- Decoding.

  /** `strings.TrimRight(line, "\r\n")`. */
  function TrimEnd(s: bytes): bytes {
    if s != "" && (s[|s| - 1] == '\r' || s[|s| - 1] == '\n') then TrimEnd(s[..|s| - 1]) else s
  }

  predicate Digits(s: bytes) {
    s != "" && forall i :: 0 <= i < |s| ==> '0' <= s[i] <= '9'
  }

  /** `strconv.Atoi`: an optional sign, then digits, within 64 bits. */
  function Atoi(s: bytes): Option<int> {
    var signed := s != "" && (s[0] == '-' || s[0] == '+');
    var digits := if signed then s[1..] else s;
    if !Digits(digits) then None
    else
      var n := if signed && s[0] == '-' then -(Value(digits) as int) else Value(digits);
      if -MAX_INT - 1 <= n <= MAX_INT then Some(n) else None
  }

  /** A bulk payload of `n` bytes and the two bytes after it, whatever they are. */
  function Bulk(n: int, rest: bytes): (Outcome, bytes) {
    if n == -1 then (NilReply, rest)
    else if n < 0 then (NegativeLength, rest)
    else if |rest| < n + 2 then (BrokenStream, "")
    else (Reply(rest[..n]), rest[n + 2..])
  }

  /** The first reply in `data`, and what is left of `data` after it. */
  function Read(data: bytes): (Outcome, bytes) {
    if data == "" then (BrokenStream, "")
    else
      var kind, body := data[0], data[1..];
      var eol := IndexByte(body, '\n');
      if kind !in "+-:$" then (UnknownType, body)
      else if eol == |body| then (BrokenStream, "")
      else
        var line, rest := TrimEnd(body[..eol + 1]), body[eol + 1..];
        if kind == '-' then (ErrorReply(line), rest)
        else if kind != '$' then (Reply(line), rest)
        else match Atoi(line)
          case None => (BadNumber, rest)
          case Some(n) => Bulk(n, rest)
  }

  /** The buffered reader over one connection. */
  class Reader {
    var data: bytes

    constructor (data: bytes)
      ensures this.data == data
    {
      this.data := data;
    }

    method ReadByte() returns (c: Option<char>)
      modifies this
      ensures old(data) == "" ==> c == None && data == ""
      ensures old(data) != "" ==> c == Some(old(data)[0]) && data == old(data)[1..]
    {
      if data == "" {
        return None;
      }
      c := Some(data[0]);
      data := data[1..];
    }

    /** Up to and including the next newline. */
    method ReadString() returns (line: Option<bytes>)
      modifies this
      ensures var eol := IndexByte(old(data), '\n');
              if eol == |old(data)| then line == None && data == ""
              else line == Some(old(data)[..eol + 1]) && data == old(data)[eol + 1..]
    {
      var eol := IndexByte(data, '\n');
      if eol == |data| {
        data := "";
        return None;
      }
      line := Some(data[..eol + 1]);
      data := data[eol + 1..];
    }

    method ReadFull(n: nat) returns (buf: Option<bytes>)
      modifies this
      ensures |old(data)| < n ==> buf == None && data == ""
      ensures |old(data)| >= n ==> buf == Some(old(data)[..n]) && data == old(data)[n..]
    {
      if |data| < n {
        data := "";
        return None;
      }
      buf := Some(data[..n]);
      data := data[n..];
    }

    method ReadReply() returns (r: Outcome)
      modifies this
      ensures (r, data) == Read(old(data))
    {
      var t := ReadByte();
      if t == None {
        return BrokenStream;
      }
      match t.value
      case '+' =>
        var line := ReadString();
        if line == None {
          return BrokenStream;
        }
        return Reply(TrimEnd(line.value));
      case '-' =>
        var line := ReadString();
        if line == None {
          return BrokenStream;
        }
        return ErrorReply(TrimEnd(line.value));
      case ':' =>
        var line := ReadString();
        if line == None {
          return BrokenStream;
        }
        return Reply(TrimEnd(line.value));
      case '$' =>
        var line := ReadString();
        if line == None {
          return BrokenStream;
        }
        var n := Atoi(TrimEnd(line.value));
        if n == None {
          return BadNumber;
        }
        if n.value == -1 {
          return NilReply;
        }
        if n.value < 0 {
          return NegativeLength;
        }
        var buf := ReadFull(n.value);
        if buf == None {
          return BrokenStream;
        }
        var crlf := ReadFull(2);
        if crlf == None {
          return BrokenStream;
        }
        return Reply(buf.value);
      case _ =>
        return UnknownType;
    }
  }

  // ----- Round trips.

  lemma AtoiItoa(n: nat)
    requires n <= MAX_INT
    ensures Atoi(Itoa(n)) == Some(n)
  {
    ValueItoa(n);
  }

  lemma TrimEndOfLine(s: bytes)
    ensures TrimEnd(s + CRLF) == TrimEnd(s)
  {
    assert (s + CRLF)[..|s| + 1] == s + "\r";
    assert TrimEnd(s + CRLF) == TrimEnd(s + "\r");
    assert (s + "\r")[..|s|] == s;
    assert TrimEnd(s + "\r") == TrimEnd(s);
  }

  /** Reading a CRLF line off the front. */
  lemma LineOff(line: bytes, rest: bytes)
    requires '\n' !in line
    ensures var body := line + CRLF + rest;
            var eol := IndexByte(body, '\n');
            eol == |line| + 1 && TrimEnd(body[..eol + 1]) == TrimEnd(line) && body[eol + 1..] == rest
  {
    var body := line + CRLF + rest;
    LineEnd(line, rest);
    IndexByteIs(body, '\n', |line| + 1);
    TrimEndOfLine(line);
  }

  lemma LineEnd(line: bytes, rest: bytes)
    requires '\n' !in line
    ensures var body := line + CRLF + rest;
            && body[|line| + 1] == '\n' && '\n' !in body[..|line| + 1]
            && body[..|line| + 2] == line + CRLF && body[|line| + 2..] == rest
  {
    assert (line + CRLF + rest)[..|line| + 1] == line + "\r";
  }

  lemma BulkOff(a: bytes, rest: bytes)
    ensures Bulk(|a|, a + CRLF + rest) == (Reply(a), rest)
  {
    var tail := a + CRLF + rest;
    assert tail[..|a|] == a && tail[|a| + 2..] == rest;
  }

  lemma FrameSplits(n: bytes, a: bytes, rest: bytes)
    ensures var data := "$" + n + CRLF + a + CRLF + rest;
            |data| > 0 && data[0] == '$' && data[1..] == n + CRLF + (a + CRLF + rest)
  {
  }

  /**
    A frame read back is the string it was made from, whatever bytes it holds,
    and the reader stands at the next frame.
   */
  lemma FrameRoundTrip(a: bytes, rest: bytes)
    requires |a| <= MAX_INT
    ensures Read(BulkFrame(a) + rest) == (Reply(a), rest)
  {
    var n := Itoa(|a|);
    FrameSplits(n, a, rest);
    LineOff(n, a + CRLF + rest);
    TrimEndShorter(n);
    AtoiItoa(|a|);
    BulkOff(a, rest);
  }

  /** `k` replies in a row. */
  function ReadMany(data: bytes, k: nat): (seq<Outcome>, bytes)
    decreases k
  {
    if k == 0 then ([], data)
    else
      var (first, rest) := Read(data);
      var (more, end) := ReadMany(rest, k - 1);
      ([first] + more, end)
  }

  function Replies(args: seq<bytes>): seq<Outcome> {
    seq(|args|, i requires 0 <= i < |args| => Reply(args[i]))
  }

  /** A sequence of frames decodes to the same sequence. */
  lemma {:induction false} FramesRoundTrip(args: seq<bytes>, rest: bytes)
    requires forall i :: 0 <= i < |args| ==> |args[i]| <= MAX_INT
    ensures ReadMany(Frames(args) + rest, |args|) == (Replies(args), rest)
    decreases args
  {
    if args == [] {
      assert "" + rest == rest;
    } else {
      Associates(BulkFrame(args[0]), Frames(args[1..]), rest);
      FrameRoundTrip(args[0], Frames(args[1..]) + rest);
      FramesRoundTrip(args[1..], rest);
      assert Replies(args) == [Reply(args[0])] + Replies(args[1..]);
    }
  }

  /** A simple-string reply comes back unchanged exactly when it holds no newline and does not end in CR. */
  lemma SimpleRoundTrip(s: bytes, rest: bytes)
    ensures Read("+" + s + CRLF + rest) == (Reply(s), rest)
            <==> '\n' !in s && (s == "" || s[|s| - 1] != '\r')
  {
    var data := "+" + s + CRLF + rest;
    var body := data[1..];
    assert body == s + CRLF + rest;
    if '\n' !in s {
      LineOff(s, rest);
      TrimEndShorter(s);
    } else {
      var k :| 0 <= k < |s| && s[k] == '\n';
      assert body[k] == '\n';
      var eol := IndexByte(body, '\n');
      IndexByteAtMost(body, '\n', k);
      TrimEndShorter(body[..eol + 1]);
      assert |body[eol + 1..]| > |rest|;
    }
  }

  /** A reply of one line, whatever its kind, up to its end. */
  lemma LineRead(kind: char, line: bytes, rest: bytes)
    requires kind in "+-:$" && '\n' !in line && (line == "" || line[|line| - 1] != '\r')
    ensures var (reply, left) := Read([kind] + line + "\r\n" + rest);
            && (kind == '+' || kind == ':' ==> reply == Reply(line) && left == rest)
            && (kind == '-' ==> reply == ErrorReply(line) && left == rest)
            && (kind == '$' && Atoi(line).None? ==> reply == BadNumber && left == rest)
            && (kind == '$' && Atoi(line) == Some(-1) ==> reply == NilReply && left == rest)
            && (kind == '$' && Atoi(line).Some? && Atoi(line).value < -1 ==> reply == NegativeLength && left == rest)
  {
    var data := [kind] + line + CRLF + rest;
    assert data[1..] == line + CRLF + rest;
    LineOff(line, rest);
    TrimEndShorter(line);
  }

  /** A number without a sign, and one with: `Atoi` reads what was written, within 64 bits. */
  lemma AtoiMeans(n: nat)
    ensures n <= 0x7FFF_FFFF_FFFF_FFFF ==> Atoi(Itoa(n)) == Some(n)
    ensures n > 0x7FFF_FFFF_FFFF_FFFF ==> Atoi(Itoa(n)) == None
  {
    ValueItoa(n);
  }

  lemma AtoiPlus(n: int)
    requires n >= 0
    ensures Atoi("+" + Itoa(n)) == if n <= 0x7FFF_FFFF_FFFF_FFFF then Some(n) else None
  {
    ValueItoa(n);
    SignOff("+", Itoa(n));
  }

  lemma AtoiMinus(n: int)
    requires n >= 0
    ensures Atoi("-" + Itoa(n)) == if n <= 0x8000_0000_0000_0000 then Some(-n) else None
  {
    ValueItoa(n);
    SignOff("-", Itoa(n));
  }

  /** A number written out, its sign included, is read as itself. */
  lemma DecimalReadsBack(n: int)
    requires -0x8000_0000_0000_0000 <= n <= 0x7FFF_FFFF_FFFF_FFFF
    ensures Atoi(Decimal(n)) == Some(n)
  {
    if n < 0 {
      AtoiMinus(-n);
    } else {
      AtoiMeans(n);
    }
  }

  lemma SignOff(sign: bytes, digits: bytes)
    requires |sign| == 1
    ensures (sign + digits)[0] == sign[0] && (sign + digits)[1..] == digits
  {
  }

  lemma AtoiRefuses(s: bytes)
    requires s == "" || s == "+" || s == "-" || exists i :: 0 < i < |s| && !('0' <= s[i] <= '9')
    ensures Atoi(s) == None
  {
    var digits := if s != "" && (s[0] == '-' || s[0] == '+') then s[1..] else s;
    if i :| 0 < i < |s| && !('0' <= s[i] <= '9') {
      assert if |digits| == |s| then digits[i] == s[i] else digits[i - 1] == s[i];
    }
  }

  /** Nothing but the four kinds is read; of an unknown one only its first byte is. */
  lemma UnknownRead(kind: char, rest: bytes)
    ensures kind != '+' && kind != '-' && kind != ':' && kind != '$' <==> Read([kind] + rest) == (UnknownType, rest)
  {
    assert ([kind] + rest)[1..] == rest;
    if kind in "+-:$" {
      assert Read([kind] + rest).0 != UnknownType;
    }
  }

  /** Whatever is cut off the end of a frame, the reader finds the connection broken. */
  lemma CutFrameIsBroken(a: bytes, k: nat)
    requires |a| <= MAX_INT && k < |BulkFrame(a)|
    ensures Read(BulkFrame(a)[..k]).0 == BrokenStream
  {
    var n := Itoa(|a|);
    var frame := BulkFrame(a);
    if k > 0 {
      FrameSplits(n, a, "");
      assert frame + "" == frame;
      CutOff(frame, k);
      CutBody(n, a, frame[1..], k - 1);
    }
  }

  lemma CutOff(frame: bytes, k: nat)
    requires 0 < k <= |frame| && frame[0] == '$'
    ensures frame[..k] == "$" + frame[1..][..k - 1]
  {
  }

  lemma ReadBulk(body: bytes)
    ensures var eol := IndexByte(body, '\n');
            Read("$" + body)
            == if eol == |body| then (BrokenStream, "")
               else match Atoi(TrimEnd(body[..eol + 1]))
                    case None => (BadNumber, body[eol + 1..])
                    case Some(n) => Bulk(n, body[eol + 1..])
  {
    assert ("$" + body)[1..] == body;
  }

  lemma CutBody(n: bytes, a: bytes, body: bytes, k: nat)
    requires n == Itoa(|a|) && |a| <= MAX_INT && body == n + CRLF + (a + CRLF + "") && k < |body|
    ensures Read("$" + body[..k]).0 == BrokenStream
  {
    LineEnd(n, a + CRLF + "");
    ReadBulk(body[..k]);
    if k <= |n| + 1 {
      assert body[..k] == body[..|n| + 1][..k];
      IndexByteIs(body[..k], '\n', k);
    } else {
      AtoiItoa(|a|);
      CutBehindLine(n, body, k);
      ShortBulk(|a|, body[..k][|n| + 2..]);
    }
  }

  lemma ShortBulk(n: nat, rest: bytes)
    requires |rest| < n + 2
    ensures Bulk(n, rest).0 == BrokenStream
  {
  }

  lemma CutBehindLine(n: bytes, body: bytes, k: nat)
    requires |n| + 1 < k <= |body| && body[..|n| + 2] == n + CRLF && '\n' !in body[..|n| + 1]
    requires n != "" && '0' <= n[|n| - 1] <= '9'
    ensures IndexByte(body[..k], '\n') == |n| + 1 && TrimEnd(body[..k][..|n| + 2]) == n
  {
    var cut := body[..k];
    assert cut[..|n| + 2] == body[..|n| + 2] && cut[..|n| + 1] == body[..|n| + 1];
    assert cut[|n| + 1] == (n + CRLF)[|n| + 1];
    IndexByteIs(cut, '\n', |n| + 1);
    TrimEndOfLine(n);
    TrimEndShorter(n);
  }

  lemma {:induction false} TrimEndShorter(s: bytes)
    ensures |TrimEnd(s)| <= |s|
    ensures TrimEnd(s) == s <==> s == "" || (s[|s| - 1] != '\r' && s[|s| - 1] != '\n')
  {
    if s == "" || (s[|s| - 1] != '\r' && s[|s| - 1] != '\n') {
    } else {
      TrimEndShorter(s[..|s| - 1]);
    }
  }
}
