/**
  The writer that turns an upstream OpenAI stream into Gemini events, and how
  its text compares with what the Anthropic writer delivers.
 */
module Gemini {
  import opened Bytes
  import opened Framing
  import opened Chunks
  import Anthropic
  import opened Sequences

  datatype Counts = Counts(prompt: int, completion: int, total: int)

  datatype Event = Event(text: bytes, usage: Option<Counts>)

  datatype Env = Env(parse: Parser, promptEst: int)

  datatype Core = Core(textLen: int, sent: seq<Event>)

  datatype Writer = Writer(status: int, wroteHeader: bool, total: int, raw: bytes, pending: bytes, core: Core)

  const STOP: bytes := "stop"

  const FRESH := Writer(200, false, 0, "", "", Core(0, []))

  // ----- The specification.

  /** The payload of a line: the `data:` prefix is dropped when it is there. */
  function LinePayload(line: bytes): bytes {
    TrimSpace(TrimPrefix(line, DATA))
  }

  /** The counts a stop event carries, `textLen` being the text delivered up to it. */
  function StopCounts(env: Env, usage: Option<Usage>, textLen: int): Counts {
    var prompt := if usage.Some? && usage.value.prompt > 0 then usage.value.prompt else env.promptEst;
    var completion := if usage.Some? && usage.value.completion > 0 then usage.value.completion else Max(1, textLen / 4);
    Counts(prompt, completion, prompt + completion)
  }

  function Payload(env: Env, k: Core, payload: bytes): Core {
    match env.parse(payload)
    case None => k
    case Some(c) =>
      if c.choices == [] || (c.choices[0].content == "" && c.choices[0].finish != STOP) then k
      else
        var text, finish := c.choices[0].content, c.choices[0].finish;
        var len := k.textLen + |text|;
        Core(len, k.sent + [Event(text, if finish == STOP then Some(StopCounts(env, c.usage, len)) else None)])
  }

  function Line(env: Env, k: Core, line: bytes): Core {
    var payload := LinePayload(line);
    if payload == "" || payload == DONE then k else Payload(env, k, payload)
  }

  function AllLines(env: Env, k: Core, lines: seq<bytes>): Core
    decreases lines
  {
    if lines == [] then k else AllLines(env, Line(env, k, lines[0]), lines[1..])
  }

  function Feed(env: Env, w: Writer, p: bytes): Writer {
    var counted := w.(total := w.total + |p|);
    if w.status >= 400 then counted.(raw := w.raw + p)
    else counted.(pending := Rest(w.pending + p), core := AllLines(env, w.core, Lines(w.pending + p)))
  }

  lemma StripCR(line: bytes)
    requires line != [] && line[|line| - 1] == '\r'
    ensures LinePayload(line[..|line| - 1]) == LinePayload(line)
  {
    var shorter := line[..|line| - 1];
    if DATA <= line {
      assert line[|DATA| - 1] == ':';
      assert DATA <= shorter;
      assert line[|DATA|..] == shorter[|DATA|..] + "\r";
      TrimSpaceAppendCR(shorter[|DATA|..]);
    } else {
      assert line == shorter + "\r";
      TrimSpaceAppendCR(shorter);
    }
  }

  // ----- The writer itself.

  class StreamWriter {
    const env: Env
    var status: int
    var wroteHeader: bool
    var total: int
    var raw: bytes
    var pending: bytes
    var textLen: int
    var sent: seq<Event>

    function View(): Writer
      reads this
    {
      Writer(status, wroteHeader, total, raw, pending, Core(textLen, sent))
    }

    constructor (env: Env)
      ensures this.env == env && View() == FRESH
    {
      this.env := env;
      status, wroteHeader, total, raw, pending, textLen, sent := 200, false, 0, "", "", 0, [];
    }

    method WriteHeader(code: int)
      modifies this
      ensures View() == if old(wroteHeader) then old(View()) else old(View()).(status := code, wroteHeader := true)
    {
      if !wroteHeader {
        status := code;
        wroteHeader := true;
      }
    }

    method Write(p: bytes)
      modifies this
      ensures View() == Feed(env, old(View()), p)
    {
      total := total + |p|;
      if status >= 400 {
        raw := raw + p;
        return;
      }
      var data := pending + p;
      pending := "";
      ghost var whole := data;
      ghost var all := AllLines(env, Core(textLen, sent), Lines(whole));
      while true
        invariant status == old(status) && wroteHeader == old(wroteHeader)
        invariant total == old(total) + |p| && raw == old(raw)
        invariant pending == ""
        invariant AllLines(env, Core(textLen, sent), Lines(data)) == all && Rest(data) == Rest(whole)
        decreases |data|
      {
        var idx := IndexByte(data, '\n');
        if idx == |data| {
          pending := pending + data;
          break;
        }
        var line := data[..idx];
        assert Lines(data)[0] == line && Lines(data)[1..] == Lines(data[idx + 1..]);
        data := data[idx + 1..];
        if |line| > 0 && line[|line| - 1] == '\r' {
          StripCR(line);
          line := line[..|line| - 1];
        }
        HandleLine(line);
      }
    }

    method HandleLine(line: bytes)
      modifies this`textLen, this`sent
      ensures Core(textLen, sent) == Line(env, old(Core(textLen, sent)), line)
    {
      var payload := TrimSpace(TrimPrefix(line, DATA));
      if payload == "" || payload == DONE {
        return;
      }
      var parsed := env.parse(payload);
      if parsed == None || |parsed.value.choices| == 0 {
        return;
      }
      var ch := parsed.value;
      var delta := ch.choices[0].content;
      var finish := ch.choices[0].finish;
      if delta == "" && finish != STOP {
        return;
      }
      textLen := textLen + |delta|;
      var usage: Option<Counts> := None;
      if finish == STOP {
        var prompt := env.promptEst;
        var comp := Max(1, textLen / 4);
        if ch.usage.Some? {
          if ch.usage.value.prompt > 0 {
            prompt := ch.usage.value.prompt;
          }
          if ch.usage.value.completion > 0 {
            comp := ch.usage.value.completion;
          }
        }
        usage := Some(Counts(prompt, comp, prompt + comp));
      }
      sent := sent + [Event(delta, usage)];
    }
  }

  // ----- Chunk invariance.

  lemma {:induction false} AllLinesAppend(env: Env, k: Core, a: seq<bytes>, b: seq<bytes>)
    ensures AllLines(env, k, a + b) == AllLines(env, AllLines(env, k, a), b)
    decreases a
  {
    if a == [] {
      assert a + b == b;
    } else {
      assert (a + b)[1..] == a[1..] + b;
      AllLinesAppend(env, Line(env, k, a[0]), a[1..], b);
    }
  }

  lemma FeedTwice(env: Env, w: Writer, p: bytes, q: bytes)
    ensures Feed(env, Feed(env, w, p), q) == Feed(env, w, p + q)
  {
    Associates(w.raw, p, q);
    Associates(w.pending, p, q);
    if w.status < 400 {
      LinesAppend(w.pending + p, q);
      AllLinesAppend(env, w.core, Lines(w.pending + p), Lines(Rest(w.pending + p) + q));
    }
  }

  function FeedAll(env: Env, w: Writer, pieces: seq<bytes>): Writer
    decreases pieces
  {
    if pieces == [] then w else FeedAll(env, Feed(env, w, pieces[0]), pieces[1..])
  }

  lemma {:induction false} ChunkInvariance(env: Env, w: Writer, pieces: seq<bytes>)
    requires '\n' !in w.pending
    ensures FeedAll(env, w, pieces) == Feed(env, w, Concat(pieces))
    decreases pieces
  {
    if pieces == [] {
      assert w.pending + "" == w.pending && w.raw + "" == w.raw;
      NoLineYet(w.pending);
    } else {
      Reassemble(w.pending + pieces[0]);
      ChunkInvariance(env, Feed(env, w, pieces[0]), pieces[1..]);
      FeedTwice(env, w, pieces[0], Concat(pieces[1..]));
    }
  }

  // ----- Text preservation.

  function Text(events: seq<Event>): bytes {
    if events == [] then ""
    else Text(events[..|events| - 1]) + events[|events| - 1].text
  }

  lemma TextPush(events: seq<Event>, e: Event)
    ensures Text(events + [e]) == Text(events) + e.text
  {
    assert (events + [e])[..|events|] == events;
  }

  /** The text this writer takes from one line; any line may carry some. */
  function LineText(parse: Parser, line: bytes): bytes {
    var payload := LinePayload(line);
    if payload == "" || payload == DONE then "" else Content(parse, payload)
  }

  function LinesText(parse: Parser, lines: seq<bytes>): bytes {
    if lines == [] then "" else LineText(parse, lines[0]) + LinesText(parse, lines[1..])
  }

  /** The delivered text is the upstream text, and `textLen` counts it. */
  lemma {:induction false} StreamKeepsText(env: Env, k: Core, lines: seq<bytes>)
    requires k.textLen == |Text(k.sent)|
    ensures var after := AllLines(env, k, lines);
            && Text(after.sent) == Text(k.sent) + LinesText(env.parse, lines)
            && after.textLen == |Text(after.sent)|
    decreases lines
  {
    if lines == [] {
    } else {
      var next := Line(env, k, lines[0]);
      LineKeepsText(env, k, lines[0]);
      StreamKeepsText(env, next, lines[1..]);
      Associates(Text(k.sent), LineText(env.parse, lines[0]), LinesText(env.parse, lines[1..]));
    }
  }

  lemma LineKeepsText(env: Env, k: Core, line: bytes)
    requires k.textLen == |Text(k.sent)|
    ensures Text(Line(env, k, line).sent) == Text(k.sent) + LineText(env.parse, line)
    ensures Line(env, k, line).textLen == |Text(Line(env, k, line).sent)|
  {
    var next := Line(env, k, line);
    if next != k {
      TextPush(k.sent, next.sent[|k.sent|]);
    }
  }

  // ----- The reported counts.

  /** The line carries a chunk that stops a candidate. */
  predicate Stops(parse: Parser, line: bytes) {
    var payload := LinePayload(line);
    payload != "" && payload != DONE && parse(payload).Some?
    && parse(payload).value.choices != [] && parse(payload).value.choices[0].finish == STOP
  }

  /** What the chunk reports, 0 when it reports nothing. */
  function PromptOf(c: Chunk): int {
    if c.usage.Some? then c.usage.value.prompt else 0
  }

  function CompletionOf(c: Chunk): int {
    if c.usage.Some? then c.usage.value.completion else 0
  }

  /** The counts a stop must carry when `delivered` bytes of text have gone out with it. */
  predicate Accounts(env: Env, c: Chunk, delivered: nat, counts: Counts) {
    && counts.prompt == (if PromptOf(c) > 0 then PromptOf(c) else env.promptEst)
    && counts.completion == (if CompletionOf(c) > 0 then CompletionOf(c) else Max(1, delivered / 4))
    && counts.total == counts.prompt + counts.completion
  }

  lemma LineAccounts(env: Env, k: Core, line: bytes)
    requires k.textLen == |Text(k.sent)|
    ensures var after := Line(env, k, line).sent;
            && k.sent <= after && |after| <= |k.sent| + 1
            && (Stops(env.parse, line) <==> |after| == |k.sent| + 1 && after[|k.sent|].usage.Some?)
            && (Stops(env.parse, line) ==>
                 Accounts(env, env.parse(LinePayload(line)).value, |Text(after)|, after[|k.sent|].usage.value))
  {
    LineKeepsText(env, k, line);
  }

  lemma {:induction false} LaterLines(env: Env, k: Core, lines: seq<bytes>)
    ensures k.sent <= AllLines(env, k, lines).sent
    decreases lines
  {
    if lines == [] {
    } else {
      LaterLines(env, Line(env, k, lines[0]), lines[1..]);
    }
  }

  /**
    Over any stream the line at `i` adds an event with counts exactly if it
    stops a candidate; the counts are the chunk's positive ones, or else the
    estimate for the prompt and a quarter of all text delivered up to and with
    this event, at least one, and they add up.
   */
  lemma StopReports(env: Env, lines: seq<bytes>, i: nat)
    requires i < |lines|
    ensures var before := AllLines(env, FRESH.core, lines[..i]).sent;
            var after := AllLines(env, FRESH.core, lines[..i + 1]).sent;
            && before <= after <= AllLines(env, FRESH.core, lines).sent && |after| <= |before| + 1
            && (Stops(env.parse, lines[i]) <==> |after| == |before| + 1 && after[|before|].usage.Some?)
            && Text(after) == LinesText(env.parse, lines[..i + 1])
            && (Stops(env.parse, lines[i]) ==>
                 Accounts(env, env.parse(LinePayload(lines[i])).value, |Text(after)|, after[|before|].usage.value))
  {
    var k := AllLines(env, FRESH.core, lines[..i]);
    StreamKeepsText(env, FRESH.core, lines[..i]);
    StreamKeepsText(env, FRESH.core, lines[..i + 1]);
    OneLineMore(env, lines, i);
    LineAccounts(env, k, lines[i]);
    assert lines == lines[..i + 1] + lines[i + 1..];
    AllLinesAppend(env, FRESH.core, lines[..i + 1], lines[i + 1..]);
    LaterLines(env, AllLines(env, FRESH.core, lines[..i + 1]), lines[i + 1..]);
    EmptyFirst(LinesText(env.parse, lines[..i + 1]));
  }

  lemma OneLineMore(env: Env, lines: seq<bytes>, i: nat)
    requires i < |lines|
    ensures AllLines(env, FRESH.core, lines[..i + 1]) == Line(env, AllLines(env, FRESH.core, lines[..i]), lines[i])
  {
    assert lines[..i + 1] == lines[..i] + [lines[i]];
    AllLinesAppend(env, FRESH.core, lines[..i], [lines[i]]);
    assert [lines[i]][1..] == [];
  }

  /**
    What each line of a stream sends: nothing, or one event with the text of
    its chunk, when there is some or the chunk stops the candidate; with counts
    when it stops it.
   */
  lemma LineSends(env: Env, lines: seq<bytes>, i: nat)
    requires i < |lines|
    ensures var before := AllLines(env, FRESH.core, lines[..i]).sent;
            var after := AllLines(env, FRESH.core, lines[..i + 1]).sent;
            var payload := TrimSpace(TrimPrefix(lines[i], "data:"));
            if payload == "" || payload == "[DONE]" || env.parse(payload).None?
               || env.parse(payload).value.choices == []
            then after == before
            else
              var c := env.parse(payload).value;
              var text, stops := c.choices[0].content, c.choices[0].finish == "stop";
              && |after| == |before| + (if text != "" || stops then 1 else 0) && before <= after
              && (text != "" || stops ==>
                   after[|before|].text == text && (after[|before|].usage.Some? <==> stops))
              && (stops ==>
                   var counts := after[|before|].usage.value;
                   var sofar := |Text(after)|;
                   && counts.prompt == (if c.usage.Some? && c.usage.value.prompt > 0 then c.usage.value.prompt
                                        else env.promptEst)
                   && counts.completion == (if c.usage.Some? && c.usage.value.completion > 0
                                            then c.usage.value.completion
                                            else if sofar < 4 then 1 else sofar / 4)
                   && counts.total == counts.prompt + counts.completion)
  {
    StreamKeepsText(env, FRESH.core, lines[..i]);
    OneLineMore(env, lines, i);
    LineKeepsText(env, AllLines(env, FRESH.core, lines[..i]), lines[i]);
  }

  /** Every byte is counted, whatever becomes of it; after an error status all of them go out as they are. */
  lemma {:induction false} CountsBytes(env: Env, w: Writer, pieces: seq<bytes>)
    ensures var v := FeedAll(env, w, pieces);
            && v.total == w.total + |Concat(pieces)| && v.status == w.status
            && (w.status >= 400 ==> v.raw == w.raw + Concat(pieces) && v.core == w.core)
            && (w.status < 400 ==> v.raw == w.raw)
    decreases pieces
  {
    if pieces == [] {
      assert w.raw + "" == w.raw;
    } else {
      CountsBytes(env, Feed(env, w, pieces[0]), pieces[1..]);
      Associates(w.raw, pieces[0], Concat(pieces[1..]));
    }
  }

  // ----- The two translators agree.

  predicate Silent(parse: Parser, line: bytes) {
    !(DATA <= line) ==> LineText(parse, line) == ""
  }

  lemma {:induction false} SameLinesText(parse: Parser, lines: seq<bytes>)
    ensures |LinesContent(parse, lines)| <= |LinesText(parse, lines)|
    ensures LinesText(parse, lines) == LinesContent(parse, lines)
            <==> forall i :: 0 <= i < |lines| ==> Silent(parse, lines[i])
    ensures |LinesText(parse, lines)| == |LinesContent(parse, lines)|
            ==> forall i :: 0 <= i < |lines| ==> Silent(parse, lines[i])
  {
    if lines == [] {
    } else {
      var line, rest := lines[0], lines[1..];
      SameLinesText(parse, rest);
      if Silent(parse, line) {
        assert LineText(parse, line) == LineContent(parse, line);
        if forall i :: 0 <= i < |rest| ==> Silent(parse, rest[i]) {
          assert forall i :: 0 < i < |lines| ==> lines[i] == rest[i - 1];
        }
      } else {
        assert LineContent(parse, line) == "" && |LineText(parse, line)| > 0;
      }
    }
  }

  lemma Delivers(env: Env, pieces: seq<bytes>)
    ensures Text(FeedAll(env, FRESH, pieces).core.sent) == LinesText(env.parse, Lines(Concat(pieces)))
  {
    ChunkInvariance(env, FRESH, pieces);
    assert "" + Concat(pieces) == Concat(pieces);
    StreamKeepsText(env, FRESH.core, Lines(Concat(pieces)));
  }

  /**
    Fed the same bytes, cut anyhow and not the same way, the two writers
    deliver the same text exactly when no complete line without the `data:`
    prefix decodes to text: only this writer looks at such lines.
   */
  lemma SameTextAsAnthropic(parse: Parser, inputEst: int, promptEst: int, pieces: seq<bytes>, others: seq<bytes>)
    requires Concat(pieces) == Concat(others)
    ensures var anthropic := Anthropic.FeedAll(Anthropic.Env(parse, inputEst), Anthropic.FRESH, pieces);
            var gemini := FeedAll(Env(parse, promptEst), FRESH, others);
            var lines := Lines(Concat(pieces));
            Text(gemini.core.sent) == Anthropic.Text(anthropic.core.sent)
            <==> forall i :: 0 <= i < |lines| ==> Silent(parse, lines[i])
  {
    Anthropic.Delivers(Anthropic.Env(parse, inputEst), pieces);
    Delivers(Env(parse, promptEst), others);
    SameLinesText(parse, Lines(Concat(pieces)));
  }
}
