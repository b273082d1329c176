/**
  The PDF invoice writer, checked the way a PDF reader would: from the end of
  the file to the cross-reference table, and from there to every object
  (ISO 32000-1, sections 7.5.4, 7.5.5 and 7.3.4.2).
 */
module Invoice {
  import opened Bytes
  import opened Sequences

  // ----- Literal strings.

  method PdfEscape(s: bytes) returns (r: bytes)
    ensures r == Escaped(s)
  {
    r := ReplaceAll(s, "\\", "\\\\");
    r := ReplaceAll(r, "(", "\\(");
    r := ReplaceAll(r, ")", "\\)");
    SequentialIsOnePass(s);
  }

  /** Every parenthesis and backslash behind a backslash, in one pass. */
  function Escaped(s: bytes): bytes {
    if s == "" then ""
    else (if s[0] in "\\()" then ['\\', s[0]] else [s[0]]) + Escaped(s[1..])
  }

  function OneByte(s: bytes, c: char, to: bytes): bytes {
    if s == "" then "" else (if s[0] == c then to else [s[0]]) + OneByte(s[1..], c, to)
  }

  lemma {:induction false} ReplaceOneByte(s: bytes, c: char, to: bytes)
    ensures ReplaceAll(s, [c], to) == OneByte(s, c, to)
  {
    if s == "" {
    } else {
      ReplaceOneByte(s[1..], c, to);
    }
  }

  lemma {:induction false} OneByteAppend(a: bytes, b: bytes, c: char, to: bytes)
    ensures OneByte(a + b, c, to) == OneByte(a, c, to) + OneByte(b, c, to)
  {
    if a == "" {
      assert a + b == b;
    } else {
      assert (a + b)[1..] == a[1..] + b;
      OneByteAppend(a[1..], b, c, to);
    }
  }

  function Sequential(s: bytes): bytes {
    OneByte(OneByte(OneByte(s, '\\', "\\\\"), '(', "\\("), ')', "\\)")
  }

  /** The later replacements do not touch what the earlier ones wrote. */
  lemma SequentialIsOnePass(s: bytes)
    ensures ReplaceAll(ReplaceAll(ReplaceAll(s, "\\", "\\\\"), "(", "\\("), ")", "\\)") == Escaped(s)
  {
    ReplaceOneByte(s, '\\', "\\\\");
    var first := OneByte(s, '\\', "\\\\");
    ReplaceOneByte(first, '(', "\\(");
    ReplaceOneByte(OneByte(first, '(', "\\("), ')', "\\)");
    SequentialEscapes(s);
  }

  lemma {:induction false} SequentialEscapes(s: bytes)
    ensures Sequential(s) == Escaped(s)
  {
    if s == "" {
    } else {
      SequentialEscapes(s[1..]);
      var head := if s[0] == '\\' then "\\\\" else [s[0]];
      var tail := OneByte(s[1..], '\\', "\\\\");
      OneByteAppend(head, tail, '(', "\\(");
      OneByteAppend(OneByte(head, '(', "\\("), OneByte(tail, '(', "\\("), ')', "\\)");
      SmallStrings(s[0]);
    }
  }

  lemma SmallStrings(c: char)
    ensures OneByte(OneByte(if c == '\\' then "\\\\" else [c], '(', "\\("), ')', "\\)")
            == if c in "\\()" then ['\\', c] else [c]
  {
    if c == '\\' {
      assert "\\\\" == ['\\'] + ['\\'];
      OneByteAppend(['\\'], ['\\'], '(', "\\(");
      Single('\\', '(', "\\(");
      OneByteAppend(['\\'], ['\\'], ')', "\\)");
      Single('\\', ')', "\\)");
    } else if c == '(' {
      Single('(', '(', "\\(");
      OneByteAppend(['\\'], ['('], ')', "\\)");
      Single('\\', ')', "\\)");
      Single('(', ')', "\\)");
    } else {
      Single(c, '(', "\\(");
      Single(c, ')', "\\)");
    }
  }

  lemma Single(x: char, c: char, to: bytes)
    ensures OneByte([x], c, to) == if x == c then to else [x]
  {
    assert [x][1..] == "";
  }

  /**
    How a PDF reader reads on inside a literal string, `depth` parentheses
    deep: the string and what follows its closing parenthesis.  A raw end of
    line, in any form, reads as a newline.
   */
  function Literal(data: bytes, depth: nat): Option<(bytes, bytes)>
    decreases |data|
  {
    if data == "" then None
    else if data[0] == '\\' then
      if |data| < 2 || data[1] !in "\\()" then None else Then(data[1], Literal(data[2..], depth))
    else if data[0] == '(' then Then('(', Literal(data[1..], depth + 1))
    else if data[0] == ')' then
      if depth == 0 then Some(("", data[1..])) else Then(')', Literal(data[1..], depth - 1))
    else if data[0] == '\r' then
      Then('\n', Literal(if |data| > 1 && data[1] == '\n' then data[2..] else data[1..], depth))
    else Then(data[0], Literal(data[1..], depth))
  }

  function Then(c: char, rest: Option<(bytes, bytes)>): Option<(bytes, bytes)> {
    match rest
    case None => None
    case Some((text, after)) => Some(([c] + text, after))
  }

  function Newlines(s: bytes): bytes
    decreases |s|
  {
    if s == "" then ""
    else if s[0] == '\r' then "\n" + Newlines(if |s| > 1 && s[1] == '\n' then s[2..] else s[1..])
    else [s[0]] + Newlines(s[1..])
  }

  lemma {:induction false} NewlinesSame(s: bytes)
    ensures Newlines(s) == s <==> '\r' !in s
    ensures '\r' !in Newlines(s)
    decreases |s|
  {
    if s == "" {
    } else {
      assert s == [s[0]] + s[1..];
      if s[0] == '\r' {
        NewlinesSame(if |s| > 1 && s[1] == '\n' then s[2..] else s[1..]);
        assert Newlines(s)[0] == '\n';
      } else {
        NewlinesSame(s[1..]);
        assert Newlines(s)[1..] == Newlines(s[1..]);
      }
    }
  }

  function Closed(s: bytes, rest: bytes): bytes {
    Escaped(s) + ")" + rest
  }

  lemma ClosedStep(s: bytes, rest: bytes)
    requires s != ""
    ensures var data, later := Closed(s, rest), Closed(s[1..], rest);
            if s[0] in "\\()" then |data| > 2 && data[0] == '\\' && data[1] == s[0] && data[2..] == later
            else |data| > 1 && data[0] == s[0] && data[1..] == later
  {
    var head := if s[0] in "\\()" then ['\\', s[0]] else [s[0]];
    Associates(head, Escaped(s[1..]), ")");
    Associates(head, Escaped(s[1..]) + ")", rest);
  }

  lemma {:induction false} LiteralReadsBack(s: bytes, rest: bytes)
    ensures Literal(Closed(s, rest), 0) == Some((Newlines(s), rest))
    decreases |s|
  {
    if s == "" {
      assert Closed(s, rest)[1..] == rest;
    } else {
      ClosedStep(s, rest);
      LiteralReadsBack(s[1..], rest);
      if s[0] == '\r' && |s| > 1 {
        ClosedStep(s[1..], rest);
        assert s[1..][1..] == s[2..];
        LiteralReadsBack(s[2..], rest);
      }
    }
  }

  /**
    An escaped string between parentheses is read back exactly as it was,
    and reading stops exactly at its end, if and only if it holds no carriage
    return.
   */
  lemma EscapeRoundTrip(s: bytes, rest: bytes)
    ensures Literal(Escaped(s) + ")" + rest, 0) == Some((s, rest)) <==> '\r' !in s
  {
    LiteralReadsBack(s, rest);
    NewlinesSame(s);
  }

  // ----- Writing the file.

  const HEADER: bytes := "%PDF-1.4\n"
  const OBJ1: bytes := "1 0 obj\n<< /Type /Catalog /Pages 2 0 R >>\nendobj\n"
  const OBJ2: bytes := "2 0 obj\n<< /Type /Pages /Kids [3 0 R] /Count 1 >>\nendobj\n"
  const OBJ3: bytes := "3 0 obj\n<< /Type /Page /Parent 2 0 R /MediaBox [0 0 612 792] "
                       + "/Contents 4 0 R /Resources << /Font << /F1 5 0 R >> >> >>\nendobj\n"
  const OBJ5: bytes := "5 0 obj\n<< /Type /Font /Subtype /Type1 /BaseFont /Helvetica >>\nendobj\n"
  /** The head of the table, with the entry of object 0. */
  const XREF: bytes := "xref\n0 6\n0000000000 65535 f \n"
  const TRAILER: bytes := "trailer\n<< /Size 6 /Root 1 0 R >>\nstartxref\n"
  const END: bytes := "\n%%EOF\n"

  function TextLines(month: bytes, requests: int, cost: int, date: bytes): seq<bytes> {
    ["Billing Invoice", "Month: " + month, "Total requests: " + Decimal(requests),
     "Total cost: " + Decimal(cost), "Generated: " + date]
  }

  function Shows(lines: seq<bytes>): bytes {
    if lines == [] then ""
    else Shows(lines[..|lines| - 1]) + ("(" + Escaped(lines[|lines| - 1]) + ") Tj\n0 -30 Td\n")
  }

  // ----- Reading the page.

  const PAGE: bytes := "BT\n/F1 20 Tf\n72 720 Td\n"
  const SHOW: bytes := " Tj\n0 -30 Td\n"

  /** `n` strings in parentheses, each shown and followed by the move to the next line. */
  function ReadTexts(data: bytes, n: nat): Option<(seq<bytes>, bytes)>
    decreases n
  {
    if n == 0 then Some(([], data))
    else if data == "" || data[0] != '(' then None
    else match Literal(data[1..], 0)
      case None => None
      case Some((text, after)) =>
        if !(SHOW <= after) then None
        else match ReadTexts(after[|SHOW|..], n - 1)
          case None => None
          case Some((more, rest)) => Some(([text] + more, rest))
  }

  function AsRead(lines: seq<bytes>): seq<bytes> {
    if lines == [] then [] else [Newlines(lines[0])] + AsRead(lines[1..])
  }

  function ShowOne(line: bytes): bytes {
    "(" + Escaped(line) + ") Tj\n0 -30 Td\n"
  }

  lemma {:induction false} ShowsFirst(lines: seq<bytes>)
    requires lines != []
    ensures Shows(lines) == ShowOne(lines[0]) + Shows(lines[1..])
  {
    var n := |lines| - 1;
    if n == 0 {
      assert lines[..0] == [] && lines[1..] == [];
      assert "" + ShowOne(lines[0]) == ShowOne(lines[0]) + "";
    } else {
      ShowsFirst(lines[..n]);
      assert lines[..n][1..] == lines[1..][..n - 1] && lines[1..][n - 1] == lines[n];
      Associates(ShowOne(lines[0]), Shows(lines[..n][1..]), ShowOne(lines[n]));
    }
  }

  /** A shown line, up to what follows it. */
  lemma ShownLine(line: bytes, rest: bytes)
    ensures var data := ShowOne(line) + rest;
            && data != "" && data[0] == '(' && data[1..] == Closed(line, SHOW + rest)
            && SHOW <= SHOW + rest && (SHOW + rest)[|SHOW|..] == rest
  {
    assert ") Tj\n0 -30 Td\n" == ")" + SHOW;
    Regrouped("(", Escaped(line), ")", SHOW, rest);
  }

  lemma Regrouped(a: bytes, b: bytes, c: bytes, d: bytes, e: bytes)
    requires |a| == 1
    ensures (a + b + (c + d) + e)[0] == a[0] && (a + b + (c + d) + e)[1..] == b + c + (d + e)
  {
  }

  lemma {:induction false} TextsReadBack(lines: seq<bytes>, rest: bytes)
    ensures ReadTexts(Shows(lines) + rest, |lines|) == Some((AsRead(lines), rest))
    decreases |lines|
  {
    if lines == [] {
      EmptyFirst(rest);
    } else {
      var later := Shows(lines[1..]) + rest;
      ShowsFirst(lines);
      Associates(ShowOne(lines[0]), Shows(lines[1..]), rest);
      ShownLine(lines[0], later);
      LiteralReadsBack(lines[0], SHOW + later);
      TextsReadBack(lines[1..], rest);
    }
  }

  lemma {:induction false} AsReadSame(lines: seq<bytes>)
    ensures |AsRead(lines)| == |lines|
    ensures AsRead(lines) == lines <==> forall i :: 0 <= i < |lines| ==> '\r' !in lines[i]
  {
    if lines == [] {
    } else {
      AsReadSame(lines[1..]);
      NewlinesSame(lines[0]);
      assert AsRead(lines)[1..] == AsRead(lines[1..]) && lines == [lines[0]] + lines[1..];
      assert forall i :: 0 <= i < |lines[1..]| ==> lines[1..][i] == lines[i + 1];
      assert forall i :: 0 < i < |lines| ==> lines[i] == lines[1..][i - 1];
    }
  }

  /** What is written on the page. */
  function Content(month: bytes, requests: int, cost: int, date: bytes): bytes {
    PAGE + Shows(TextLines(month, requests, cost, date)) + "ET\n"
  }

  /**
    A reader of the page finds the five lines as they were written, up to the
    end of the text, if and only if none holds a carriage return.
   */
  lemma PageReadsBack(month: bytes, requests: int, cost: int, date: bytes)
    ensures var lines := ["Billing Invoice", "Month: " + month, "Total requests: " + Decimal(requests),
                          "Total cost: " + Decimal(cost), "Generated: " + date];
            var content := Content(month, requests, cost, date);
            && "BT\n/F1 20 Tf\n72 720 Td\n" <= content
            && (ReadTexts(content[|"BT\n/F1 20 Tf\n72 720 Td\n"|..], 5) == Some((lines, "ET\n"))
                <==> forall i :: 0 <= i < 5 ==> '\r' !in lines[i])
  {
    var lines := TextLines(month, requests, cost, date);
    Associates(PAGE, Shows(lines), "ET\n");
    assert (PAGE + (Shows(lines) + "ET\n"))[|PAGE|..] == Shows(lines) + "ET\n";
    TextsReadBack(lines, "ET\n");
    AsReadSame(lines);
  }

  method InvoicePDFContent(month: bytes, requests: int, cost: int, date: bytes) returns (b: bytes)
    ensures b == Content(month, requests, cost, date)
  {
    var lines := TextLines(month, requests, cost, date);
    b := PAGE;
    b := ShowLines(b, lines);
    b := b + "ET\n";
  }

  method ShowLines(head: bytes, lines: seq<bytes>) returns (b: bytes)
    ensures b == head + Shows(lines)
  {
    b := head;
    for i := 0 to |lines|
      invariant b == head + Shows(lines[..i])
    {
      var e := PdfEscape(lines[i]);
      assert lines[..i + 1][..i] == lines[..i];
      Associates(head, Shows(lines[..i]), "(" + e + ") Tj\n0 -30 Td\n");
      b := b + ("(" + e + ") Tj\n0 -30 Td\n");
    }
    assert lines[..|lines|] == lines;
  }

  function StreamObject(content: bytes): bytes {
    "4 0 obj\n<< /Length " + Itoa(|content|) + " >>\nstream\n" + content + "\nendstream\nendobj\n"
  }

  function Objects(content: bytes): (objects: seq<bytes>)
    ensures |objects| == 5
  {
    [OBJ1, OBJ2, OBJ3, StreamObject(content), OBJ5]
  }

  /** `%010d`. */
  function Pad(s: bytes, width: nat): bytes
    decreases width - |s|
  {
    if |s| >= width then s else Pad("0" + s, width)
  }

  function Entry(offset: nat): bytes {
    Pad(Itoa(offset), 10) + " 00000 n \n"
  }

  function Entries(offsets: seq<nat>): bytes {
    if offsets == [] then ""
    else Entries(offsets[..|offsets| - 1]) + Entry(offsets[|offsets| - 1])
  }

  function Table(offsets: seq<nat>, xref: nat): bytes {
    XREF + Entries(offsets) + TRAILER + Itoa(xref) + END
  }

  function Front(objects: seq<bytes>): bytes {
    HEADER + Concat(objects)
  }

  /** Where each object begins. */
  function Offsets(objects: seq<bytes>): seq<nat> {
    seq(|objects|, i requires 0 <= i < |objects| => |Front(objects[..i])|)
  }

  function File(objects: seq<bytes>): bytes {
    Front(objects) + Table(Offsets(objects), |Front(objects)|)
  }

  /** Writes the objects, recording where each begins, and then the table. */
  method Assemble(objects: seq<bytes>) returns (pdf: bytes)
    ensures pdf == File(objects)
  {
    var buf := HEADER;
    var offsets := new nat[|objects|];
    for i := 0 to |objects|
      invariant buf == Front(objects[..i])
      invariant offsets[..i] == Offsets(objects)[..i]
    {
      offsets[i] := |buf|;
      FrontStep(objects, i);
      buf := buf + objects[i];
    }
    assert objects[..|objects|] == objects && offsets[..] == Offsets(objects);
    var xrefPos := |buf|;
    var table := XREF;
    ghost var head := table;
    for i := 0 to |objects|
      invariant offsets[..] == Offsets(objects)
      invariant table == head + Entries(Offsets(objects)[..i])
    {
      assert Offsets(objects)[..i + 1][..i] == Offsets(objects)[..i];
      Associates(head, Entries(Offsets(objects)[..i]), Entry(offsets[i]));
      table := table + Entry(offsets[i]);
    }
    assert Offsets(objects)[..|objects|] == Offsets(objects);
    table := table + TRAILER;
    table := table + Itoa(xrefPos) + END;
    pdf := buf + table;
  }

  lemma FrontStep(objects: seq<bytes>, i: nat)
    requires i < |objects|
    ensures Front(objects[..i + 1]) == Front(objects[..i]) + objects[i]
  {
    assert objects[..i + 1] == objects[..i] + [objects[i]];
    ConcatAppend(objects[..i], [objects[i]]);
    assert Concat([objects[i]]) == objects[i] + Concat([]);
  }

  method BuildInvoicePDF(month: bytes, requests: int, cost: int, date: bytes) returns (pdf: bytes, content: bytes)
    ensures content == Content(month, requests, cost, date)
    ensures |pdf| < 10_000_000_000 ==> Readable(pdf, content)
  {
    content := InvoicePDFContent(month, requests, cost, date);
    var objects := Objects(content);
    pdf := Assemble(objects);
    if |pdf| < 10_000_000_000 {
      FileIsReadable(objects, content);
    }
  }

  // ----- Reading the file.

  predicate At(s: bytes, i: nat, t: bytes) {
    i + |t| <= |s| && s[i..i + |t|] == t
  }

  predicate AllDigits(s: bytes) {
    forall i :: 0 <= i < |s| ==> '0' <= s[i] <= '9'
  }

  function DigitSuffix(s: bytes): (d: bytes)
    ensures AllDigits(d)
  {
    if s == "" || !('0' <= s[|s| - 1] <= '9') then ""
    else DigitSuffix(s[..|s| - 1]) + [s[|s| - 1]]
  }

  /** The number in front of the end-of-file marker. */
  function StartXref(pdf: bytes): nat {
    if |pdf| < |END| then 0 else Value(DigitSuffix(pdf[..|pdf| - |END|]))
  }

  /** Cross-reference entries are 20 bytes each, after the section head and the free entry 0. */
  predicate EntryIs(pdf: bytes, xref: nat, n: nat, offset: nat) {
    var e := xref + 9 + 20 * n;
    && e + 20 <= |pdf|
    && AllDigits(pdf[e..e + 10]) && Value(pdf[e..e + 10]) == offset
    && pdf[e + 10..e + 20] == " 00000 n \n"
  }

  /** Following entry `n` leads to the object `n`. */
  ghost predicate Finds(pdf: bytes, n: nat, obj: bytes) {
    exists offset: nat :: EntryIs(pdf, StartXref(pdf), n, offset) && At(pdf, offset, obj)
  }

  /** The header, the end marker, the table it leads to, and every object the table leads to. */
  ghost predicate Readable(pdf: bytes, content: bytes) {
    && "%PDF-1.4\n" <= pdf
    && 7 <= |pdf| && pdf[|pdf| - 7..] == "\n%%EOF\n"
    && At(pdf, StartXref(pdf), "xref\n0 6\n0000000000 65535 f \n")
    && At(pdf, StartXref(pdf) + 129, "trailer\n<< /Size 6 /Root 1 0 R >>\nstartxref\n")
    && HasObjects(pdf, content)
  }

  ghost predicate HasObjects(pdf: bytes, content: bytes) {
    && Finds(pdf, 1, "1 0 obj\n<< /Type /Catalog /Pages 2 0 R >>\nendobj\n")
    && Finds(pdf, 2, "2 0 obj\n<< /Type /Pages /Kids [3 0 R] /Count 1 >>\nendobj\n")
    && Finds(pdf, 3, "3 0 obj\n<< /Type /Page /Parent 2 0 R /MediaBox [0 0 612 792] "
                     + "/Contents 4 0 R /Resources << /Font << /F1 5 0 R >> >> >>\nendobj\n")
    && Finds(pdf, 4, "4 0 obj\n<< /Length " + Itoa(|content|) + " >>\nstream\n" + content
                     + "\nendstream\nendobj\n")
    && Finds(pdf, 5, "5 0 obj\n<< /Type /Font /Subtype /Type1 /BaseFont /Helvetica >>\nendobj\n")
  }

  lemma {:induction false} ItoaLength(n: nat, k: nat)
    requires k >= 1 && n < Power10(k)
    ensures |Itoa(n)| <= k
  {
    if n < 10 {
    } else {
      ItoaLength(n / 10, k - 1);
    }
  }

  function Power10(k: nat): nat {
    if k == 0 then 1 else 10 * Power10(k - 1)
  }

  lemma {:induction false} ValueLeadingZero(s: bytes)
    requires AllDigits(s)
    ensures AllDigits("0" + s) && Value("0" + s) == Value(s)
  {
    var t := "0" + s;
    if s != "" {
      ValueLeadingZero(s[..|s| - 1]);
      assert t[..|t| - 1] == "0" + s[..|s| - 1];
    } else {
      assert t[..0] == "";
    }
  }

  lemma {:induction false} PadKeeps(s: bytes, width: nat)
    requires AllDigits(s) && |s| <= width
    ensures AllDigits(Pad(s, width)) && |Pad(s, width)| == width && Value(Pad(s, width)) == Value(s)
    decreases width - |s|
  {
    if |s| == width {
    } else {
      ValueLeadingZero(s);
      PadKeeps("0" + s, width);
    }
  }

  lemma EntryShape(offset: nat)
    requires offset < 10_000_000_000
    ensures |Entry(offset)| == 20
    ensures AllDigits(Entry(offset)[..10]) && Value(Entry(offset)[..10]) == offset
    ensures Entry(offset)[10..] == " 00000 n \n"
  {
    TenDigits();
    ItoaLength(offset, 10);
    PadKeeps(Itoa(offset), 10);
    ValueItoa(offset);
    assert Entry(offset)[..10] == Pad(Itoa(offset), 10);
  }

  lemma TenDigits()
    ensures Power10(10) == 10_000_000_000
  {
    assert Power10(5) == 100_000;
    assert Power10(8) == 100_000_000;
  }

  lemma {:induction false} EntriesAt(offsets: seq<nat>, i: nat)
    requires forall j :: 0 <= j < |offsets| ==> offsets[j] < 10_000_000_000
    requires i < |offsets|
    ensures |Entries(offsets)| == 20 * |offsets|
    ensures Entries(offsets)[20 * i..20 * i + 20] == Entry(offsets[i])
  {
    var before, last := offsets[..|offsets| - 1], offsets[|offsets| - 1];
    EntryShape(last);
    if before == [] {
    } else {
      EntriesAt(before, if i < |before| then i else 0);
    }
    if i < |before| {
      assert Entries(offsets)[20 * i..20 * i + 20] == Entries(before)[20 * i..20 * i + 20];
    }
  }

  lemma {:induction false} DigitsBehind(s: bytes, d: bytes)
    requires AllDigits(d) && s != "" && !('0' <= s[|s| - 1] <= '9')
    ensures DigitSuffix(s + d) == d
  {
    if d == "" {
      assert s + d == s;
    } else {
      assert (s + d)[..|s + d| - 1] == s + d[..|d| - 1];
      DigitsBehind(s, d[..|d| - 1]);
    }
  }

  lemma AtMiddle(a: bytes, t: bytes, b: bytes)
    ensures At(a + t + b, |a|, t)
  {
  }

  lemma AtPrefix(s: bytes, i: nat, t: bytes, head: bytes)
    requires At(s, i, t) && head <= t
    ensures At(s, i, head)
  {
    assert s[i..i + |head|] == s[i..i + |t|][..|head|];
  }

  /** The number between a text that ends in no digit and the end marker. */
  lemma NumberBefore(front: bytes, n: nat, end: bytes)
    requires front != "" && !('0' <= front[|front| - 1] <= '9')
    ensures var s := front + Itoa(n) + end;
            s[|s| - |end|..] == end && Value(DigitSuffix(s[..|s| - |end|])) == n
  {
    var s := front + Itoa(n) + end;
    assert s[..|s| - |end|] == front + Itoa(n);
    DigitsBehind(front, Itoa(n));
    ValueItoa(n);
  }

  lemma TailIsFound(front: bytes, n: nat)
    ensures var pdf := front + TRAILER + Itoa(n) + END;
            |END| <= |pdf| && pdf[|pdf| - |END|..] == END && StartXref(pdf) == n
  {
    assert (front + TRAILER)[|front + TRAILER| - 1] == TRAILER[|TRAILER| - 1];
    NumberBefore(front + TRAILER, n, END);
  }

  /** Entry `n` of a table of 20-byte entries. */
  lemma EntryIsFound(before: bytes, offsets: seq<nat>, after: bytes, n: nat)
    requires forall j :: 0 <= j < |offsets| ==> offsets[j] < 10_000_000_000
    requires 1 <= n <= |offsets| && |before| >= 29
    ensures EntryIs(before + Entries(offsets) + after, |before| - 29, n, offsets[n - 1])
  {
    var entry := EntryText(offsets, n);
    EntryInside(before, Entries(offsets), after, n, entry, offsets[n - 1]);
  }

  lemma EntryText(offsets: seq<nat>, n: nat) returns (entry: bytes)
    requires forall j :: 0 <= j < |offsets| ==> offsets[j] < 10_000_000_000
    requires 1 <= n <= |offsets|
    ensures 20 * n <= |Entries(offsets)| && Entries(offsets)[20 * (n - 1)..20 * (n - 1) + 20] == entry
    ensures |entry| == 20 && AllDigits(entry[..10]) && Value(entry[..10]) == offsets[n - 1]
    ensures entry[10..] == " 00000 n \n"
  {
    EntriesAt(offsets, n - 1);
    EntryShape(offsets[n - 1]);
    entry := Entry(offsets[n - 1]);
  }

  lemma EntryInside(before: bytes, mid: bytes, after: bytes, n: nat, entry: bytes, offset: nat)
    requires n >= 1 && 20 * n <= |mid| && mid[20 * (n - 1)..20 * (n - 1) + 20] == entry
    requires |entry| == 20 && AllDigits(entry[..10]) && Value(entry[..10]) == offset && entry[10..] == " 00000 n \n"
    requires |before| >= 29
    ensures EntryIs(before + mid + after, |before| - 29, n, offset)
  {
    SliceMiddle(before, mid, after, 20 * (n - 1));
  }

  lemma SliceMiddle(a: bytes, mid: bytes, b: bytes, i: nat)
    requires i + 20 <= |mid|
    ensures var s, e := a + mid + b, |a| + i;
            && s[e..e + 10] == mid[i..i + 20][..10]
            && s[e + 10..e + 20] == mid[i..i + 20][10..]
  {
  }

  /** The start of the table, and in it every object's entry, are found from the end of the file. */
  lemma FileLayout(objects: seq<bytes>, n: nat)
    requires |Front(objects)| < 10_000_000_000
    requires 1 <= n <= |objects|
    ensures var pdf := File(objects);
            && |END| <= |pdf| && pdf[|pdf| - |END|..] == END
            && At(pdf, StartXref(pdf), XREF)
            && EntryIs(pdf, StartXref(pdf), n, Offsets(objects)[n - 1])
            && At(pdf, Offsets(objects)[n - 1], objects[n - 1])
  {
    var body, offsets := Front(objects), Offsets(objects);
    var before := body + XREF;
    var tail := TRAILER + Itoa(|body|) + END;
    TableSplits(body, offsets);
    TailIsFound(before + Entries(offsets), |body|);
    AtMiddle(body, XREF, Entries(offsets) + tail);
    OffsetsBounded(objects);
    assert |XREF| == 29;
    EntryIsFound(before, offsets, tail, n);
    ObjectIsThere(objects, n - 1, Table(offsets, |body|));
  }

  lemma TableSplits(body: bytes, offsets: seq<nat>)
    ensures var before := body + XREF;
            var tail := TRAILER + Itoa(|body|) + END;
            var pdf := body + Table(offsets, |body|);
            && pdf == before + Entries(offsets) + tail
            && pdf == body + XREF + (Entries(offsets) + tail)
            && pdf == before + Entries(offsets) + TRAILER + Itoa(|body|) + END
  {
    Regroup(body, XREF, Entries(offsets), TRAILER, Itoa(|body|), END);
  }

  lemma Regroup(a: bytes, b: bytes, c: bytes, d: bytes, e: bytes, f: bytes)
    ensures a + (b + c + d + e + f) == a + b + c + (d + e + f)
    ensures a + (b + c + d + e + f) == a + b + (c + (d + e + f))
    ensures a + (b + c + d + e + f) == a + b + c + d + e + f
  {
  }

  lemma {:induction false} FrontGrows(objects: seq<bytes>, i: nat)
    requires i <= |objects|
    ensures |Front(objects[..i])| <= |Front(objects)|
  {
    assert objects == objects[..i] + objects[i..];
    ConcatAppend(objects[..i], objects[i..]);
  }

  lemma OffsetsBounded(objects: seq<bytes>)
    requires |Front(objects)| < 10_000_000_000
    ensures forall j :: 0 <= j < |objects| ==> Offsets(objects)[j] < 10_000_000_000
  {
    forall j | 0 <= j < |objects|
      ensures Offsets(objects)[j] < 10_000_000_000
    {
      FrontGrows(objects, j);
    }
  }

  lemma ObjectIsThere(objects: seq<bytes>, i: nat, rest: bytes)
    requires i < |objects|
    ensures At(Front(objects) + rest, Offsets(objects)[i], objects[i])
  {
    var a, t, b := Front(objects[..i]), objects[i], Concat(objects[i + 1..]);
    assert objects == objects[..i + 1] + objects[i + 1..];
    ConcatAppend(objects[..i + 1], objects[i + 1..]);
    FrontStep(objects, i);
    Regroup3(HEADER, Concat(objects[..i + 1]), b, a, t, rest);
    AtMiddle(a, t, b + rest);
  }

  lemma Regroup3(h: bytes, c: bytes, b: bytes, a: bytes, t: bytes, rest: bytes)
    requires h + c == a + t
    ensures h + (c + b) + rest == a + t + (b + rest)
  {
    assert h + (c + b) == (h + c) + b;
  }

  /** The table leads to whatever an object begins with. */
  lemma FindsStart(objects: seq<bytes>, n: nat, head: bytes)
    requires |Front(objects)| < 10_000_000_000
    requires 1 <= n <= |objects| && head <= objects[n - 1]
    ensures Finds(File(objects), n, head)
  {
    FileLayout(objects, n);
    AtPrefix(File(objects), Offsets(objects)[n - 1], objects[n - 1], head);
  }

  /** The trailer stands behind the five entries. */
  lemma TrailerIsFound(body: bytes, offsets: seq<nat>)
    requires |offsets| == 5 && forall j :: 0 <= j < |offsets| ==> offsets[j] < 10_000_000_000
    ensures At(body + Table(offsets, |body|), |body| + 129, TRAILER)
  {
    var before := body + XREF + Entries(offsets);
    BeforeTrailer(body, offsets);
    TableSplits(body, offsets);
    TrailerIn(before, Itoa(|body|));
  }

  lemma BeforeTrailer(body: bytes, offsets: seq<nat>)
    requires |offsets| == 5 && forall j :: 0 <= j < |offsets| ==> offsets[j] < 10_000_000_000
    ensures |body + XREF + Entries(offsets)| == |body| + 129
  {
    EntriesAt(offsets, 0);
    Lengths(body, XREF, Entries(offsets));
    XrefLength();
  }

  lemma Lengths(a: bytes, b: bytes, c: bytes)
    ensures |a + b + c| == |a| + |b| + |c|
  {
  }

  lemma XrefLength()
    ensures |XREF| == 29
  {
  }

  lemma TrailerIn(before: bytes, number: bytes)
    ensures At(before + TRAILER + number + END, |before|, TRAILER)
  {
    Associates(before + TRAILER, number, END);
    AtMiddle(before, TRAILER, number + END);
  }

  lemma FileIsReadable(objects: seq<bytes>, content: bytes)
    requires objects == Objects(content)
    requires |File(objects)| < 10_000_000_000
    ensures Readable(File(objects), content)
  {
    HasItsObjects(objects, content);
    FileLayout(objects, 1);
    OffsetsBounded(objects);
    TrailerIsFound(Front(objects), Offsets(objects));
    StartIs(objects);
    FileStarts(objects);
  }

  lemma HasItsObjects(objects: seq<bytes>, content: bytes)
    requires objects == Objects(content)
    requires |Front(objects)| < 10_000_000_000
    ensures HasObjects(File(objects), content)
  {
    FindsStart(objects, 1, OBJ1);
    FindsStart(objects, 2, OBJ2);
    FindsStart(objects, 3, OBJ3);
    FindsStart(objects, 4, StreamObject(content));
    FindsStart(objects, 5, OBJ5);
  }

  lemma FileStarts(objects: seq<bytes>)
    ensures HEADER <= File(objects)
  {
    Associates(HEADER, Concat(objects), Table(Offsets(objects), |Front(objects)|));
  }

  lemma StartIs(objects: seq<bytes>)
    ensures StartXref(File(objects)) == |Front(objects)|
  {
    var body, offsets := Front(objects), Offsets(objects);
    TableSplits(body, offsets);
    TailIsFound(body + XREF + Entries(offsets), |body|);
  }
}
