/**
  The decoded form of an upstream streaming chunk.  JSON decoding is a
  parameter of the writers: any partial function from payload to chunk.
 */
module Chunks {
  import opened Bytes
  import opened Framing

  datatype Usage = Usage(prompt: int, completion: int)

  datatype Choice = Choice(content: bytes, finish: bytes)

  datatype Chunk = Chunk(id: bytes, usage: Option<Usage>, choices: seq<Choice>)

  type Parser = bytes -> Option<Chunk>

  const DATA: bytes := "data:"
  const DONE: bytes := "[DONE]"

  /** The text a payload carries: the first choice's delta. */
  function Content(parse: Parser, payload: bytes): bytes {
    match parse(payload)
    case None => ""
    case Some(c) => if c.choices == [] then "" else c.choices[0].content
  }

  /** The payload of a `data:` line, empty for every other line. */
  function DataPayload(line: bytes): bytes {
    if DATA <= line then TrimSpace(line[|DATA|..]) else ""
  }

  /** The text a line of the upstream stream contributes. */
  function LineContent(parse: Parser, line: bytes): bytes {
    var payload := DataPayload(line);
    if payload == "" || payload == DONE then "" else Content(parse, payload)
  }

  function LinesContent(parse: Parser, lines: seq<bytes>): bytes {
    if lines == [] then "" else LineContent(parse, lines[0]) + LinesContent(parse, lines[1..])
  }

  lemma {:induction false} LinesContentAppend(parse: Parser, a: seq<bytes>, b: seq<bytes>)
    ensures LinesContent(parse, a + b) == LinesContent(parse, a) + LinesContent(parse, b)
  {
    if a == [] {
      assert a + b == b;
    } else {
      assert (a + b)[1..] == a[1..] + b;
      LinesContentAppend(parse, a[1..], b);
    }
  }

  lemma {:induction false} DataLineTrimCR(line: bytes)
    ensures DATA <= TrimCR(line) <==> DATA <= line
    ensures DATA <= line ==> TrimCR(line)[|DATA|..] == TrimCR(line[|DATA|..])
  {
    if line == [] || line[|line| - 1] != '\r' {
    } else {
      var shorter := line[..|line| - 1];
      DataLineTrimCR(shorter);
      if DATA <= line {
        assert line[|DATA| - 1] == ':';
        assert shorter[|DATA|..] == line[|DATA|..][..|line[|DATA|..]| - 1];
      }
    }
  }

  /** Line endings do not matter to the payload. */
  lemma PayloadTrimCR(line: bytes)
    ensures DataPayload(TrimCR(line)) == DataPayload(line)
  {
    DataLineTrimCR(line);
    if DATA <= line {
      TrimSpaceTrimCR(line[|DATA|..]);
    }
  }

  /** The text of a stream read in two pieces. */
  lemma ContentAcross(parse: Parser, a: bytes, b: bytes)
    ensures LinesContent(parse, Lines(a + b)) == LinesContent(parse, Lines(a)) + LinesContent(parse, Lines(Rest(a) + b))
  {
    LinesAppend(a, b);
    LinesContentAppend(parse, Lines(a), Lines(Rest(a) + b));
  }
}
