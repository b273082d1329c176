/**
  The writer that turns an upstream OpenAI stream into Anthropic events.
  Event payloads are kept as values; their JSON form is not modelled.
 */
module Anthropic {
  import opened Bytes
  import opened Framing
  import opened Chunks
  import opened Sequences

  datatype Event =
    | MessageStart(id: bytes, inputTokens: int)
    | BlockStart
    | Delta(text: bytes)
    | MessageDelta(outputTokens: int)
    | MessageStop
    | BlockStop                       // content_block_stop: the protocol has it, this writer never sends it
    | Error(message: bytes)

  /** What a writer is created with: the JSON decoder and the input estimate. */
  datatype Env = Env(parse: Parser, inputEst: int)

  datatype Core = Core(sentStart: bool, sentBlock: bool, id: bytes,
                       outBytes: int, usageIn: int, usageOut: int, sent: seq<Event>)

  datatype Writer = Writer(status: int, passthrough: bool, raw: bytes, buf: bytes, core: Core)

  const FRESH_CORE := Core(false, false, "", 0, 0, 0, [])

  const OK := 200

  const FRESH := Writer(OK, false, "", "", FRESH_CORE)

  // ----- The specification: one line at a time, then any number of lines.

  function NoteChunk(k: Core, c: Chunk): Core {
    k.(id := if c.id != "" then c.id else k.id,
       usageIn := if c.usage.Some? && c.usage.value.prompt > 0 then c.usage.value.prompt else k.usageIn,
       usageOut := if c.usage.Some? && c.usage.value.completion > 0 then c.usage.value.completion else k.usageOut)
  }

  function Start(env: Env, k: Core): Core {
    if k.sentStart then k
    else
      var input := if k.usageIn == 0 then env.inputEst else k.usageIn;
      k.(sentStart := true, sent := k.sent + [MessageStart(k.id, input)])
  }

  function OpenBlock(k: Core): Core {
    if k.sentBlock then k else k.(sentBlock := true, sent := k.sent + [BlockStart])
  }

  function Emit(k: Core, text: bytes): Core {
    if text == "" then k
    else
      var begun := OpenBlock(k);
      begun.(sent := begun.sent + [Delta(text)], outBytes := begun.outBytes + |text|)
  }

  function Payload(env: Env, k: Core, payload: bytes): Core {
    match env.parse(payload)
    case None => k
    case Some(c) =>
      Emit(Start(env, NoteChunk(k, c)), if c.choices == [] then "" else c.choices[0].content)
  }

  function OutputTokens(k: Core): int {
    if k.usageOut == 0 then Max(1, k.outBytes / 4) else k.usageOut
  }

  function Done(k: Core): Core {
    k.(sent := k.sent + [MessageDelta(OutputTokens(k)), MessageStop])
  }

  function Line(env: Env, k: Core, line: bytes): Core {
    var payload := DataPayload(line);
    if payload == "" then k
    else if payload == DONE then Done(k)
    else Payload(env, k, payload)
  }

  function AllLines(env: Env, k: Core, lines: seq<bytes>): Core
    decreases lines
  {
    if lines == [] then k else AllLines(env, Line(env, k, lines[0]), lines[1..])
  }

  /** A `Write`: the complete lines are handled, the rest is kept. */
  function Feed(env: Env, w: Writer, p: bytes): Writer {
    if w.passthrough then w.(raw := w.raw + p)
    else w.(buf := Rest(w.buf + p), core := AllLines(env, w.core, Lines(w.buf + p)))
  }

  function Fail(w: Writer, message: bytes): Writer {
    if w.passthrough then w else w.(core := w.core.(sent := w.core.sent + [Error(message)]))
  }

  lemma FirstLine(env: Env, k: Core, buf: bytes, idx: nat)
    requires idx == IndexByte(buf, '\n') < |buf|
    ensures AllLines(env, k, Lines(buf)) == AllLines(env, Line(env, k, buf[..idx]), Lines(buf[idx + 1..]))
    ensures Rest(buf) == Rest(buf[idx + 1..])
  {
    assert Lines(buf)[0] == buf[..idx] && Lines(buf)[1..] == Lines(buf[idx + 1..]);
  }

  // ----- The writer itself.

  class StreamWriter {
    const env: Env
    var status: int
    var passthrough: bool
    var raw: bytes
    var buf: bytes
    var sentStart: bool
    var sentBlock: bool
    var id: bytes
    var outBytes: int
    var usageIn: int
    var usageOut: int
    var sent: seq<Event>

    function CoreView(): Core
      reads this
    {
      Core(sentStart, sentBlock, id, outBytes, usageIn, usageOut, sent)
    }

    function View(): Writer
      reads this
    {
      Writer(status, passthrough, raw, buf, CoreView())
    }

    constructor (env: Env)
      ensures this.env == env && View() == FRESH
    {
      this.env := env;
      status, passthrough, raw, buf := OK, false, "", "";
      sentStart, sentBlock, id := false, false, "";
      outBytes, usageIn, usageOut, sent := 0, 0, 0, [];
    }

    method WriteHeader(code: int)
      modifies this`status, this`passthrough
      ensures status == code && passthrough == (old(passthrough) || code != 200)
    {
      status := code;
      if code != OK {
        passthrough := true;
      }
    }

    method Write(p: bytes)
      modifies this
      ensures View() == Feed(env, old(View()), p)
    {
      if passthrough {
        raw := raw + p;
        return;
      }
      Process(p);
    }

    method WriteError(message: bytes)
      modifies this`sent
      ensures View() == Fail(old(View()), message)
    {
      if passthrough {
        return;
      }
      sent := sent + [Error(message)];
    }

    method Process(data: bytes)
      modifies this
      ensures View() == old(View()).(buf := Rest(old(buf) + data),
                                     core := AllLines(env, old(CoreView()), Lines(old(buf) + data)))
    {
      buf := buf + data;
      ghost var whole := buf;
      ghost var all := AllLines(env, CoreView(), Lines(whole));
      while true
        invariant status == old(status) && passthrough == old(passthrough) && raw == old(raw)
        invariant AllLines(env, CoreView(), Lines(buf)) == all && Rest(buf) == Rest(whole)
        decreases |buf|
      {
        var idx := IndexByte(buf, '\n');
        if idx == |buf| {
          return;
        }
        var line := TrimCR(buf[..idx]);
        FirstLine(env, CoreView(), buf, idx);
        PayloadTrimCR(buf[..idx]);
        buf := buf[idx + 1..];
        if !(DATA <= line) {
          continue;
        }
        var payload := TrimSpace(line[|DATA|..]);
        if payload == "" {
          continue;
        }
        if payload == DONE {
          HandleDone();
          continue;
        }
        HandleChunk(payload);
      }
    }

    method HandleChunk(payload: bytes)
      modifies this`sentStart, this`sentBlock, this`id, this`outBytes, this`usageIn, this`usageOut, this`sent
      ensures CoreView() == Payload(env, old(CoreView()), payload)
    {
      var parsed := env.parse(payload);
      if parsed == None {
        return;
      }
      var c := parsed.value;
      if c.id != "" {
        id := c.id;
      }
      var usage := if c.usage.Some? then c.usage.value else Usage(0, 0);
      if usage.prompt > 0 {
        usageIn := usage.prompt;
      }
      if usage.completion > 0 {
        usageOut := usage.completion;
      }
      EnsureStart();
      if |c.choices| == 0 {
        return;
      }
      SendText(c.choices[0].content);
    }

    method EnsureStart()
      modifies this`sentStart, this`sent
      ensures CoreView() == Start(env, old(CoreView()))
    {
      if !sentStart {
        var input := usageIn;
        if input == 0 {
          input := env.inputEst;
        }
        sent := sent + [MessageStart(id, input)];
        sentStart := true;
      }
    }

    method SendText(text: bytes)
      modifies this`sentBlock, this`outBytes, this`sent
      ensures CoreView() == Emit(old(CoreView()), text)
    {
      if text != "" {
        if !sentBlock {
          sent := sent + [BlockStart];
          sentBlock := true;
        }
        sent := sent + [Delta(text)];
        outBytes := outBytes + |text|;
      }
    }

    method HandleDone()
      modifies this`sent
      ensures CoreView() == Done(old(CoreView()))
    {
      var out := usageOut;
      if out == 0 {
        out := Max(1, outBytes / 4);
      }
      sent := sent + [MessageDelta(out)];
      sent := sent + [MessageStop];
    }
  }

  // ----- Chunk invariance.

  lemma {:induction false} AllLinesAppend(env: Env, k: Core, a: seq<bytes>, b: seq<bytes>)
    ensures AllLines(env, k, a + b) == AllLines(env, AllLines(env, k, a), b)
    decreases a
  {
    if a == [] {
      assert a + b == b;
    } else {
      assert (a + b)[1..] == a[1..] + b;
      AllLinesAppend(env, Line(env, k, a[0]), a[1..], b);
    }
  }

  lemma FeedTwice(env: Env, w: Writer, p: bytes, q: bytes)
    ensures Feed(env, Feed(env, w, p), q) == Feed(env, w, p + q)
  {
    if w.passthrough {
      assert w.raw + p + q == w.raw + (p + q);
    } else {
      assert w.buf + (p + q) == (w.buf + p) + q;
      LinesAppend(w.buf + p, q);
      AllLinesAppend(env, w.core, Lines(w.buf + p), Lines(Rest(w.buf + p) + q));
    }
  }

  function FeedAll(env: Env, w: Writer, pieces: seq<bytes>): Writer
    decreases pieces
  {
    if pieces == [] then w else FeedAll(env, Feed(env, w, pieces[0]), pieces[1..])
  }

  /** However the stream is cut into writes, the outcome is that of one write. */
  lemma {:induction false} ChunkInvariance(env: Env, w: Writer, pieces: seq<bytes>)
    requires '\n' !in w.buf
    ensures FeedAll(env, w, pieces) == Feed(env, w, Concat(pieces))
    decreases pieces
  {
    if pieces == [] {
      assert w.buf + "" == w.buf && w.raw + "" == w.raw;
    } else {
      Reassemble(w.buf + pieces[0]);
      ChunkInvariance(env, Feed(env, w, pieces[0]), pieces[1..]);
      FeedTwice(env, w, pieces[0], Concat(pieces[1..]));
    }
  }

  // ----- The event protocol.

  predicate HasStart(events: seq<Event>) {
    exists i :: 0 <= i < |events| && events[i].MessageStart?
  }

  predicate HasBlock(events: seq<Event>) {
    exists i :: 0 <= i < |events| && events[i].BlockStart?
  }

  predicate MidStop(events: seq<Event>) {
    events != [] && events[|events| - 1].MessageDelta?
  }

  predicate MayFollow(events: seq<Event>, e: Event) {
    match e
    case MessageStart(_, _) => !HasStart(events) && !HasBlock(events) && !MidStop(events)
    case BlockStart => HasStart(events) && !HasBlock(events) && !MidStop(events)
    case Delta(_) => HasBlock(events) && !MidStop(events)
    case MessageDelta(_) => !MidStop(events)
    case MessageStop => MidStop(events)
    case BlockStop => false
    case Error(_) => !MidStop(events)
  }

  /** Every event may follow the ones before it. */
  predicate Ordered(events: seq<Event>) {
    forall i {:trigger events[i]} :: 0 <= i < |events| ==> MayFollow(events[..i], events[i])
  }

  predicate Legal(events: seq<Event>) {
    Ordered(events) && !MidStop(events)
  }

  ghost predicate Good(k: Core) {
    && Legal(k.sent)
    && k.sentStart == HasStart(k.sent)
    && k.sentBlock == HasBlock(k.sent)
    && (k.sentBlock ==> k.sentStart)
    && k.outBytes == |Text(k.sent)|
    && k.usageOut >= 0
  }

  lemma OrderedPush(events: seq<Event>, e: Event)
    requires Ordered(events) && MayFollow(events, e)
    ensures Ordered(events + [e])
    ensures HasStart(events + [e]) == (HasStart(events) || e.MessageStart?)
    ensures HasBlock(events + [e]) == (HasBlock(events) || e.BlockStart?)
    ensures MidStop(events + [e]) == e.MessageDelta?
  {
    var more := events + [e];
    forall i | 0 <= i < |more|
      ensures MayFollow(more[..i], more[i])
    {
      assert more[..i] == events[..i];
      if i < |events| {
        assert more[i] == events[i];
      } else {
        assert events[..i] == events;
      }
    }
    if HasStart(events) {
      var i :| 0 <= i < |events| && events[i].MessageStart?;
      assert more[i].MessageStart?;
    }
    if HasBlock(events) {
      var i :| 0 <= i < |events| && events[i].BlockStart?;
      assert more[i].BlockStart?;
    }
    assert more[|events|] == e;
  }

  /** The delivered text. */
  function Text(events: seq<Event>): bytes {
    if events == [] then ""
    else
      var last := events[|events| - 1];
      Text(events[..|events| - 1]) + if last.Delta? then last.text else ""
  }

  lemma TextPush(events: seq<Event>, e: Event)
    ensures Text(events + [e]) == Text(events) + if e.Delta? then e.text else ""
  {
    assert (events + [e])[..|events|] == events;
  }

  lemma StartGood(env: Env, k: Core)
    requires Good(k)
    ensures Good(Start(env, k)) && Start(env, k).sentStart && Text(Start(env, k).sent) == Text(k.sent)
  {
    if !k.sentStart {
      var e := MessageStart(k.id, if k.usageIn == 0 then env.inputEst else k.usageIn);
      OrderedPush(k.sent, e);
      TextPush(k.sent, e);
    }
  }

  lemma OpenBlockGood(k: Core)
    requires Good(k) && k.sentStart
    ensures Good(OpenBlock(k)) && OpenBlock(k).sentBlock && Text(OpenBlock(k).sent) == Text(k.sent)
  {
    if !k.sentBlock {
      OrderedPush(k.sent, BlockStart);
      TextPush(k.sent, BlockStart);
    }
  }

  lemma EmitGood(k: Core, text: bytes)
    requires Good(k) && k.sentStart
    ensures Good(Emit(k, text)) && Text(Emit(k, text).sent) == Text(k.sent) + text
  {
    if text != "" {
      OpenBlockGood(k);
      DeltaGood(OpenBlock(k), text);
    }
  }

  lemma DeltaGood(k: Core, text: bytes)
    requires Good(k) && k.sentStart && k.sentBlock
    ensures var next := k.(sent := k.sent + [Delta(text)], outBytes := k.outBytes + |text|);
            Good(next) && Text(next.sent) == Text(k.sent) + text
  {
    OrderedPush(k.sent, Delta(text));
    TextPush(k.sent, Delta(text));
  }

  lemma DoneGood(k: Core)
    requires Good(k)
    ensures Good(Done(k)) && Text(Done(k).sent) == Text(k.sent)
  {
    var delta := MessageDelta(OutputTokens(k));
    OrderedPush(k.sent, delta);
    TextPush(k.sent, delta);
    OrderedPush(k.sent + [delta], MessageStop);
    TextPush(k.sent + [delta], MessageStop);
    assert k.sent + [delta] + [MessageStop] == k.sent + [delta, MessageStop];
  }

  lemma LineGood(env: Env, k: Core, line: bytes)
    requires Good(k)
    ensures Good(Line(env, k, line))
    ensures Text(Line(env, k, line).sent) == Text(k.sent) + LineContent(env.parse, line)
  {
    var payload := DataPayload(line);
    if payload == DONE {
      DoneGood(k);
    } else if payload != "" && env.parse(payload).Some? {
      var c := env.parse(payload).value;
      StartGood(env, NoteChunk(k, c));
      EmitGood(Start(env, NoteChunk(k, c)), if c.choices == [] then "" else c.choices[0].content);
    }
  }

  /**
    Over any lines the events keep the protocol, and the delivered text grows
    by exactly the concatenated upstream contents.
   */
  lemma {:induction false} StreamKeepsProtocolAndText(env: Env, k: Core, lines: seq<bytes>)
    requires Good(k)
    ensures Good(AllLines(env, k, lines))
    ensures Text(AllLines(env, k, lines).sent) == Text(k.sent) + LinesContent(env.parse, lines)
    decreases lines
  {
    if lines == [] {
    } else {
      LineGood(env, k, lines[0]);
      StreamKeepsProtocolAndText(env, Line(env, k, lines[0]), lines[1..]);
      Associates(Text(k.sent), LineContent(env.parse, lines[0]), LinesContent(env.parse, lines[1..]));
    }
  }

  // ----- Whole runs: writes and transport errors in any order.

  datatype Op = Piece(data: bytes) | Failure(message: bytes)

  function Apply(env: Env, w: Writer, op: Op): Writer {
    match op
    case Piece(p) => Feed(env, w, p)
    case Failure(m) => Fail(w, m)
  }

  function Run(env: Env, w: Writer, ops: seq<Op>): Writer
    decreases ops
  {
    if ops == [] then w else Run(env, Apply(env, w, ops[0]), ops[1..])
  }

  function Received(ops: seq<Op>): bytes {
    if ops == [] then ""
    else Data(ops[0]) + Received(ops[1..])
  }

  /** A writer that translates, between two operations. */
  ghost predicate Ready(w: Writer) {
    Good(w.core) && !w.passthrough && '\n' !in w.buf
  }

  /** The text delivered once `more` has arrived as well. */
  function TextAfter(env: Env, w: Writer, more: bytes): bytes {
    Text(w.core.sent) + LinesContent(env.parse, Lines(w.buf + more))
  }

  function Data(op: Op): bytes {
    if op.Piece? then op.data else ""
  }

  lemma FeedReady(env: Env, w: Writer, p: bytes)
    requires Ready(w)
    ensures Ready(Feed(env, w, p))
    ensures Text(Feed(env, w, p).core.sent) == Text(w.core.sent) + LinesContent(env.parse, Lines(w.buf + p))
  {
    StreamKeepsProtocolAndText(env, w.core, Lines(w.buf + p));
    Reassemble(w.buf + p);
  }

  lemma FailReady(w: Writer, message: bytes)
    requires Ready(w)
    ensures Ready(Fail(w, message)) && Text(Fail(w, message).core.sent) == Text(w.core.sent)
  {
    OrderedPush(w.core.sent, Error(message));
    TextPush(w.core.sent, Error(message));
  }

  lemma TextAcross(parse: Parser, text: bytes, buf: bytes, p: bytes, more: bytes)
    ensures (text + LinesContent(parse, Lines(buf + p))) + LinesContent(parse, Lines(Rest(buf + p) + more))
            == text + LinesContent(parse, Lines(buf + (p + more)))
  {
    ContentAcross(parse, buf + p, more);
    Associates(buf, p, more);
    Associates(text, LinesContent(parse, Lines(buf + p)), LinesContent(parse, Lines(Rest(buf + p) + more)));
  }

  lemma ApplyGood(env: Env, w: Writer, op: Op, more: bytes)
    requires Ready(w)
    ensures Ready(Apply(env, w, op))
    ensures TextAfter(env, Apply(env, w, op), more) == TextAfter(env, w, Data(op) + more)
  {
    if op.Piece? {
      FeedReady(env, w, op.data);
      TextAcross(env.parse, Text(w.core.sent), w.buf, op.data, more);
    } else {
      FailReady(w, op.message);
      assert "" + more == more;
    }
  }

  lemma {:induction false} RunGood(env: Env, w: Writer, ops: seq<Op>)
    requires Ready(w)
    ensures Good(Run(env, w, ops).core)
    ensures Text(Run(env, w, ops).core.sent) == TextAfter(env, w, Received(ops))
    decreases ops
  {
    if ops == [] {
      NothingMore(env, w);
    } else {
      ApplyGood(env, w, ops[0], Received(ops[1..]));
      RunGood(env, Apply(env, w, ops[0]), ops[1..]);
    }
  }

  lemma NothingMore(env: Env, w: Writer)
    requires Ready(w)
    ensures TextAfter(env, w, "") == Text(w.core.sent)
  {
    assert w.buf + "" == w.buf;
    NoLineYet(w.buf);
  }

  /**
    What a legal event sequence looks like from outside: the message starts
    once and before any block, the block once and before any delta, and
    message_delta and message_stop come only as a pair, and no block is ever
    ended.
   */
  predicate Protocol(events: seq<Event>) {
    && (forall i, j :: 0 <= i < j < |events| ==> !(events[i].MessageStart? && events[j].MessageStart?))
    && (forall i, j :: 0 <= i < j < |events| ==> !(events[i].BlockStart? && events[j].BlockStart?))
    && (forall j :: 0 <= j < |events| && events[j].BlockStart? ==>
          exists i :: 0 <= i < j && events[i].MessageStart?)
    && (forall j :: 0 <= j < |events| && events[j].Delta? ==>
          exists i :: 0 <= i < j && events[i].BlockStart?)
    && (forall i :: 0 <= i < |events| && events[i].MessageDelta? ==>
          i + 1 < |events| && events[i + 1].MessageStop?)
    && (forall i :: 0 <= i < |events| && events[i].MessageStop? ==> i > 0 && events[i - 1].MessageDelta?)
    && (forall i :: 0 <= i < |events| ==> !events[i].BlockStop?)
  }

  lemma LegalMeetsProtocol(events: seq<Event>)
    requires Legal(events)
    ensures Protocol(events)
  {
    forall i, j | 0 <= i < j < |events|
      ensures !(events[i].MessageStart? && events[j].MessageStart?)
      ensures !(events[i].BlockStart? && events[j].BlockStart?)
    {
      assert events[..j][i] == events[i];
      assert MayFollow(events[..j], events[j]);
    }
    forall j | 0 <= j < |events| && events[j].BlockStart?
      ensures exists i :: 0 <= i < j && events[i].MessageStart?
    {
      assert MayFollow(events[..j], events[j]);
      var i :| 0 <= i < j && events[..j][i].MessageStart?;
      assert events[i].MessageStart?;
    }
    forall j | 0 <= j < |events| && events[j].Delta?
      ensures exists i :: 0 <= i < j && events[i].BlockStart?
    {
      assert MayFollow(events[..j], events[j]);
      var i :| 0 <= i < j && events[..j][i].BlockStart?;
      assert events[i].BlockStart?;
    }
    forall j | 0 <= j < |events| && events[j].MessageStop?
      ensures j > 0 && events[j - 1].MessageDelta?
    {
      assert MayFollow(events[..j], events[j]);
    }
    forall i | 0 <= i < |events|
      ensures !events[i].BlockStop?
    {
      assert MayFollow(events[..i], events[i]);
    }
    forall i | 0 <= i < |events| && events[i].MessageDelta?
      ensures i + 1 < |events| && events[i + 1].MessageStop?
    {
      if i + 1 < |events| {
        assert MayFollow(events[..i + 1], events[i + 1]);
        assert events[..i + 1][i] == events[i];
      }
    }
  }

  /** Every run of a fresh writer keeps the protocol and delivers exactly the upstream text. */
  lemma EventProtocol(env: Env, ops: seq<Op>)
    ensures var events := Run(env, FRESH, ops).core.sent;
            Protocol(events) && Text(events) == LinesContent(env.parse, Lines(Received(ops)))
  {
    FreshReady(env, Received(ops));
    RunGood(env, FRESH, ops);
    LegalMeetsProtocol(Run(env, FRESH, ops).core.sent);
  }

  lemma FreshReady(env: Env, more: bytes)
    ensures Ready(FRESH) && TextAfter(env, FRESH, more) == LinesContent(env.parse, Lines(more))
  {
    EmptyFirst(more);
    EmptyFirst(LinesContent(env.parse, Lines(more)));
  }

  lemma Delivers(env: Env, pieces: seq<bytes>)
    ensures Text(FeedAll(env, FRESH, pieces).core.sent) == LinesContent(env.parse, Lines(Concat(pieces)))
  {
    ChunkInvariance(env, FRESH, pieces);
    assert "" + Concat(pieces) == Concat(pieces);
    StreamKeepsProtocolAndText(env, FRESH_CORE, Lines(Concat(pieces)));
  }

  // ----- A stop before the start.

  /** Some message_delta comes before any message_start. */
  predicate StopsEarly(events: seq<Event>) {
    exists i :: 0 <= i < |events| && events[i].MessageDelta? && !HasStart(events[..i])
  }

  /** The line carries a chunk the decoder understands. */
  predicate Decodes(env: Env, line: bytes) {
    var payload := DataPayload(line);
    payload != "" && payload != DONE && env.parse(payload).Some?
  }

  predicate NoneDecodes(env: Env, lines: seq<bytes>) {
    forall i :: 0 <= i < |lines| ==> !Decodes(env, lines[i])
  }

  /** Some line ends the stream before any line carried a chunk. */
  predicate DoneFirst(env: Env, lines: seq<bytes>) {
    exists i :: 0 <= i < |lines| && DataPayload(lines[i]) == DONE && NoneDecodes(env, lines[..i])
  }

  lemma EarlyPush(events: seq<Event>, e: Event)
    ensures StopsEarly(events + [e]) <==> StopsEarly(events) || (e.MessageDelta? && !HasStart(events))
  {
    var more := events + [e];
    forall i | 0 <= i < |events|
      ensures more[..i] == events[..i] && more[i] == events[i]
    {
    }
    assert more[..|events|] == events && more[|events|] == e;
    if StopsEarly(events) {
      var i :| 0 <= i < |events| && events[i].MessageDelta? && !HasStart(events[..i]);
      assert more[i].MessageDelta? && !HasStart(more[..i]);
    }
  }

  lemma DoneFirstPush(env: Env, lines: seq<bytes>, line: bytes)
    ensures NoneDecodes(env, lines + [line]) <==> NoneDecodes(env, lines) && !Decodes(env, line)
    ensures DoneFirst(env, lines + [line])
            <==> DoneFirst(env, lines) || (DataPayload(line) == DONE && NoneDecodes(env, lines))
  {
    var more := lines + [line];
    assert forall i :: 0 <= i < |lines| ==> more[..i] == lines[..i] && more[i] == lines[i];
    assert more[..|lines|] == lines && more[|lines|] == line;
    if NoneDecodes(env, more) {
      assert !Decodes(env, more[|lines|]);
      assert forall i :: 0 <= i < |lines| ==> !Decodes(env, more[i]);
    }
    if DoneFirst(env, lines) {
      var i :| 0 <= i < |lines| && DataPayload(lines[i]) == DONE && NoneDecodes(env, lines[..i]);
      assert DataPayload(more[i]) == DONE && NoneDecodes(env, more[..i]);
    }
  }

  lemma EmitEarly(k: Core, text: bytes)
    ensures StopsEarly(Emit(k, text).sent) <==> StopsEarly(k.sent)
    ensures Emit(k, text).sentStart == k.sentStart
  {
    if text != "" {
      if !k.sentBlock {
        EarlyPush(k.sent, BlockStart);
      }
      EarlyPush(OpenBlock(k).sent, Delta(text));
    }
  }

  lemma PayloadEarly(env: Env, k: Core, payload: bytes)
    ensures StopsEarly(Payload(env, k, payload).sent) <==> StopsEarly(k.sent)
    ensures Payload(env, k, payload).sentStart <==> k.sentStart || env.parse(payload).Some?
  {
    if env.parse(payload).Some? {
      var c := env.parse(payload).value;
      var noted := NoteChunk(k, c);
      if !noted.sentStart {
        EarlyPush(noted.sent, MessageStart(noted.id, if noted.usageIn == 0 then env.inputEst else noted.usageIn));
      }
      EmitEarly(Start(env, noted), if c.choices == [] then "" else c.choices[0].content);
    }
  }

  lemma LineEarly(env: Env, k: Core, line: bytes)
    requires Good(k)
    ensures StopsEarly(Line(env, k, line).sent)
            <==> StopsEarly(k.sent) || (DataPayload(line) == DONE && !k.sentStart)
    ensures Line(env, k, line).sentStart <==> k.sentStart || Decodes(env, line)
  {
    var payload := DataPayload(line);
    if payload == DONE {
      var delta := MessageDelta(OutputTokens(k));
      EarlyPush(k.sent, delta);
      EarlyPush(k.sent + [delta], MessageStop);
      assert k.sent + [delta] + [MessageStop] == k.sent + [delta, MessageStop];
    } else if payload != "" {
      PayloadEarly(env, k, payload);
    }
  }

  /** What any number of lines add to that. */
  lemma {:induction false} LinesEarly(env: Env, k: Core, lines: seq<bytes>)
    requires Good(k)
    ensures Good(AllLines(env, k, lines))
    ensures AllLines(env, k, lines).sentStart <==> k.sentStart || !NoneDecodes(env, lines)
    ensures StopsEarly(AllLines(env, k, lines).sent)
            <==> StopsEarly(k.sent) || (!k.sentStart && DoneFirst(env, lines))
  {
    if lines == [] {
    } else {
      var before, last := lines[..|lines| - 1], lines[|lines| - 1];
      var mid := AllLines(env, k, before);
      LinesEarly(env, k, before);
      assert lines == before + [last];
      AllLinesAppend(env, k, before, [last]);
      LineReports(env, mid, last);
      LineEarly(env, mid, last);
      LineGood(env, mid, last);
      DoneFirstPush(env, before, last);
    }
  }

  lemma NoneDecodesJoin(env: Env, a: seq<bytes>, b: seq<bytes>)
    ensures NoneDecodes(env, a + b) <==> NoneDecodes(env, a) && NoneDecodes(env, b)
  {
    if NoneDecodes(env, a + b) {
      assert forall i :: 0 <= i < |a| ==> a[i] == (a + b)[i];
      assert forall i :: 0 <= i < |b| ==> b[i] == (a + b)[|a| + i];
    }
  }

  lemma {:induction false} DoneFirstJoin(env: Env, a: seq<bytes>, b: seq<bytes>)
    ensures DoneFirst(env, a + b) <==> DoneFirst(env, a) || (NoneDecodes(env, a) && DoneFirst(env, b))
  {
    if b == [] {
      assert a + b == a;
    } else {
      var before, last := b[..|b| - 1], b[|b| - 1];
      DoneFirstJoin(env, a, before);
      NoneDecodesJoin(env, a, before);
      assert before + [last] == b && a + b == (a + before) + [last];
      DoneFirstPush(env, a + before, last);
      DoneFirstPush(env, before, last);
    }
  }

  lemma FailEarly(w: Writer, message: bytes)
    requires Ready(w)
    ensures Ready(Fail(w, message)) && Fail(w, message).core.sentStart == w.core.sentStart
    ensures StopsEarly(Fail(w, message).core.sent) <==> StopsEarly(w.core.sent)
  {
    FailReady(w, message);
    EarlyPush(w.core.sent, Error(message));
  }

  /** One piece, with `more` still to come. */
  lemma FeedEarly(env: Env, w: Writer, p: bytes, more: bytes)
    requires Ready(w)
    ensures var v := Feed(env, w, p);
            && Ready(v)
            && (StopsEarly(v.core.sent) || (!v.core.sentStart && DoneFirst(env, Lines(v.buf + more)))
                <==> StopsEarly(w.core.sent) || (!w.core.sentStart && DoneFirst(env, Lines(w.buf + (p + more)))))
  {
    FeedReady(env, w, p);
    LinesEarly(env, w.core, Lines(w.buf + p));
    Associates(w.buf, p, more);
    LinesAppend(w.buf + p, more);
    DoneFirstJoin(env, Lines(w.buf + p), Lines(Rest(w.buf + p) + more));
  }

  lemma {:induction false} RunEarly(env: Env, w: Writer, ops: seq<Op>)
    requires Ready(w)
    ensures StopsEarly(Run(env, w, ops).core.sent)
            <==> StopsEarly(w.core.sent) || (!w.core.sentStart && DoneFirst(env, Lines(w.buf + Received(ops))))
    decreases ops
  {
    if ops == [] {
      assert w.buf + "" == w.buf;
      NoLineYet(w.buf);
    } else {
      var v := Apply(env, w, ops[0]);
      var more := Received(ops[1..]);
      if ops[0].Piece? {
        FeedEarly(env, w, ops[0].data, more);
      } else {
        FailEarly(w, ops[0].message);
        EmptyFirst(more);
      }
      RunEarly(env, v, ops[1..]);
    }
  }

  /**
    The writer stops a message it never started exactly when the upstream ends
    the stream before its first decodable chunk; transport errors and the sizes
    of the writes do not matter.
   */
  lemma StopBeforeStart(env: Env, ops: seq<Op>)
    ensures StopsEarly(Run(env, FRESH, ops).core.sent) <==> DoneFirst(env, Lines(Received(ops)))
  {
    FreshReady(env, Received(ops));
    EmptyFirst(Received(ops));
    RunEarly(env, FRESH, ops);
  }

  /** Every stream that says nothing but the end does it. */
  lemma EmptyStreamStopsEarly(env: Env, done: bytes)
    requires '\n' !in done && DataPayload(done) == DONE
    ensures StopsEarly(Run(env, FRESH, [Piece(done + "\n")]).core.sent)
  {
    var ops := [Piece(done + "\n")];
    assert ops[1..] == [] && Received(ops) == done + "\n" + "" == done + "\n";
    OneLine(done);
    assert DataPayload(Lines(Received(ops))[0]) == DONE && NoneDecodes(env, Lines(Received(ops))[..0]);
    StopBeforeStart(env, ops);
  }

  lemma OneLine(line: bytes)
    requires '\n' !in line
    ensures Lines(line + "\n") == [line]
  {
    IndexByteIs(line + "\n", '\n', |line|);
    assert (line + "\n")[|line| + 1..] == "" && Lines("") == [];
  }

  /** The usual end-of-stream line is such a line. */
  lemma DoneLine()
    ensures DataPayload("data: [DONE]") == DONE && '\n' !in "data: [DONE]"
  {
    assert "data: [DONE]"[|DATA|..] == " [DONE]";
    assert " [DONE]"[1..] == DONE;
    assert TrimLeft(" [DONE]") == DONE;
  }

  // ----- What the message is started with, and which errors are sent.

  /** The message starts among the events. */
  function Starts(events: seq<Event>): seq<Event> {
    if events == [] then []
    else
      var last := events[|events| - 1];
      Starts(events[..|events| - 1]) + if last.MessageStart? then [last] else []
  }

  lemma StartsPush(events: seq<Event>, e: Event)
    ensures Starts(events + [e]) == Starts(events) + if e.MessageStart? then [e] else []
  {
    assert (events + [e])[..|events|] == events;
  }

  lemma {:induction false} StartsAre(events: seq<Event>)
    ensures forall i :: 0 <= i < |events| && events[i].MessageStart? ==> events[i] in Starts(events)
    ensures forall e :: e in Starts(events) ==> e.MessageStart? && e in events
  {
    if events == [] {
    } else {
      StartsAre(events[..|events| - 1]);
    }
  }

  /** The first chunk the lines carry. */
  function FirstChunk(env: Env, lines: seq<bytes>): Option<Chunk> {
    if lines == [] then None
    else if Decodes(env, lines[0]) then env.parse(DataPayload(lines[0]))
    else FirstChunk(env, lines[1..])
  }

  lemma {:induction false} FirstChunkJoin(env: Env, a: seq<bytes>, b: seq<bytes>)
    ensures FirstChunk(env, a + b) == if FirstChunk(env, a).Some? then FirstChunk(env, a) else FirstChunk(env, b)
  {
    if a == [] {
      assert a + b == b;
    } else {
      assert (a + b)[1..] == a[1..] + b;
      FirstChunkJoin(env, a[1..], b);
    }
  }

  lemma {:induction false} FirstChunkAt(env: Env, lines: seq<bytes>, j: nat)
    requires j < |lines| && Decodes(env, lines[j]) && NoneDecodes(env, lines[..j])
    ensures FirstChunk(env, lines) == env.parse(DataPayload(lines[j]))
  {
    if j == 0 {
    } else {
      assert lines[..j][0] == lines[0] && !Decodes(env, lines[..j][0]);
      var before := lines[1..][..j - 1];
      forall i | 0 <= i < |before|
        ensures !Decodes(env, before[i])
      {
        assert before[i] == lines[..j][i + 1];
      }
      FirstChunkAt(env, lines[1..], j - 1);
    }
  }

  /** The start a first chunk calls for: its id, and its positive prompt count or else the estimate. */
  function StartOf(env: Env, c: Option<Chunk>): seq<Event> {
    match c
    case None => []
    case Some(c) =>
      [MessageStart(c.id, if c.usage.Some? && c.usage.value.prompt > 0 then c.usage.value.prompt else env.inputEst)]
  }

  /** A message not started yet knows nothing of any chunk. */
  predicate Blank(k: Core) {
    !k.sentStart ==> k.id == "" && k.usageIn == 0 && Starts(k.sent) == []
  }

  lemma EmitStarts(k: Core, text: bytes)
    ensures Starts(Emit(k, text).sent) == Starts(k.sent) && Emit(k, text).sentStart == k.sentStart
  {
    if text != "" {
      if !k.sentBlock {
        StartsPush(k.sent, BlockStart);
      }
      StartsPush(OpenBlock(k).sent, Delta(text));
    }
  }

  lemma PayloadStarts(env: Env, k: Core, c: Chunk, payload: bytes)
    requires Blank(k) && env.parse(payload) == Some(c)
    ensures var v := Payload(env, k, payload);
            v.sentStart && Starts(v.sent) == if k.sentStart then Starts(k.sent) else StartOf(env, Some(c))
  {
    var noted := NoteChunk(k, c);
    if !k.sentStart {
      StartsPush(noted.sent, MessageStart(noted.id, if noted.usageIn == 0 then env.inputEst else noted.usageIn));
      EmptyFirst(StartOf(env, Some(c)));
    }
    EmitStarts(Start(env, noted), if c.choices == [] then "" else c.choices[0].content);
  }

  lemma DoneStarts(k: Core)
    ensures Starts(Done(k).sent) == Starts(k.sent)
  {
    var delta := MessageDelta(OutputTokens(k));
    StartsPush(k.sent, delta);
    StartsPush(k.sent + [delta], MessageStop);
    assert k.sent + [delta] + [MessageStop] == k.sent + [delta, MessageStop];
  }

  lemma OneChunk(env: Env, line: bytes)
    ensures FirstChunk(env, [line]) == if Decodes(env, line) then env.parse(DataPayload(line)) else None
  {
    assert [line][1..] == [];
  }

  lemma LineStarts(env: Env, k: Core, line: bytes)
    requires Blank(k)
    ensures Blank(Line(env, k, line)) && Line(env, k, line).sentStart == (k.sentStart || Decodes(env, line))
    ensures Starts(Line(env, k, line).sent)
            == if k.sentStart then Starts(k.sent) else StartOf(env, FirstChunk(env, [line]))
  {
    OneChunk(env, line);
    if Decodes(env, line) {
      PayloadStarts(env, k, env.parse(DataPayload(line)).value, DataPayload(line));
    } else if DataPayload(line) == DONE {
      DoneStarts(k);
    } else {
      assert Line(env, k, line) == k;
    }
  }

  lemma {:induction false} LinesStarts(env: Env, k: Core, lines: seq<bytes>)
    requires Blank(k)
    ensures var v := AllLines(env, k, lines);
            && Blank(v) && v.sentStart == (k.sentStart || FirstChunk(env, lines).Some?)
            && Starts(v.sent) == if k.sentStart then Starts(k.sent) else StartOf(env, FirstChunk(env, lines))
    decreases lines
  {
    if lines == [] {
    } else {
      OneChunk(env, lines[0]);
      LineStarts(env, k, lines[0]);
      LinesStarts(env, Line(env, k, lines[0]), lines[1..]);
    }
  }

  /** The message starts once all that is still to come has arrived. */
  function StartsAfter(env: Env, w: Writer, more: bytes): seq<Event> {
    if w.core.sentStart then Starts(w.core.sent) else StartOf(env, FirstChunk(env, Lines(w.buf + more)))
  }

  lemma ApplyStarts(env: Env, w: Writer, op: Op, more: bytes)
    requires Blank(w.core) && !w.passthrough
    ensures Blank(Apply(env, w, op).core) && !Apply(env, w, op).passthrough
    ensures StartsAfter(env, Apply(env, w, op), more) == StartsAfter(env, w, Data(op) + more)
  {
    match op
    case Piece(p) =>
      LinesStarts(env, w.core, Lines(w.buf + p));
      Associates(w.buf, p, more);
      LinesAppend(w.buf + p, more);
      FirstChunkJoin(env, Lines(w.buf + p), Lines(Rest(w.buf + p) + more));
    case Failure(message) =>
      StartsPush(w.core.sent, Error(message));
      EmptyFirst(more);
  }

  lemma {:induction false} RunStarts(env: Env, w: Writer, ops: seq<Op>)
    requires Blank(w.core) && !w.passthrough && '\n' !in w.buf
    ensures Starts(Run(env, w, ops).core.sent) == StartsAfter(env, w, Received(ops))
    decreases ops
  {
    if ops == [] {
      assert w.buf + "" == w.buf;
      NoLineYet(w.buf);
    } else {
      ApplyStarts(env, w, ops[0], Received(ops[1..]));
      if ops[0].Piece? {
        Reassemble(w.buf + ops[0].data);
      }
      RunStarts(env, Apply(env, w, ops[0]), ops[1..]);
    }
  }

  /**
    However the stream is cut and whatever fails in between: the message that
    is started carries the id of the first chunk that can be decoded, and that
    chunk's positive prompt count or else the estimate; and it is started if
    there is such a chunk.
   */
  lemma StartCarries(env: Env, ops: seq<Op>, lines: seq<bytes>, j: nat, c: Chunk)
    requires lines == Lines(Received(ops)) && j < |lines| && "data:" <= lines[j]
    requires var p := TrimSpace(lines[j][5..]); p != "" && p != "[DONE]" && env.parse(p) == Some(c)
    requires forall i :: 0 <= i < j && "data:" <= lines[i] ==>
               var p := TrimSpace(lines[i][5..]); p == "" || p == "[DONE]" || env.parse(p).None?
    ensures var events := Run(env, FRESH, ops).core.sent;
            var tokens := if c.usage.Some? && c.usage.value.prompt > 0 then c.usage.value.prompt else env.inputEst;
            && (exists i :: 0 <= i < |events| && events[i] == MessageStart(c.id, tokens))
            && (forall i :: 0 <= i < |events| && events[i].MessageStart? ==> events[i] == MessageStart(c.id, tokens))
  {
    var events := Run(env, FRESH, ops).core.sent;
    EmptyFirst(Received(ops));
    RunStarts(env, FRESH, ops);
    FirstChunkAt(env, lines, j);
    StartsAre(events);
    assert Starts(events)[0] in Starts(events);
  }

  /** The error messages among the events. */
  function Errors(events: seq<Event>): seq<bytes> {
    if events == [] then []
    else
      var last := events[|events| - 1];
      Errors(events[..|events| - 1]) + if last.Error? then [last.message] else []
  }

  lemma ErrorsPush(events: seq<Event>, e: Event)
    ensures Errors(events + [e]) == Errors(events) + if e.Error? then [e.message] else []
  {
    assert (events + [e])[..|events|] == events;
  }

  lemma DoneErrors(k: Core)
    ensures Errors(Done(k).sent) == Errors(k.sent)
  {
    var delta := MessageDelta(OutputTokens(k));
    ErrorsPush(k.sent, delta);
    ErrorsPush(k.sent + [delta], MessageStop);
    assert k.sent + [delta] + [MessageStop] == k.sent + [delta, MessageStop];
  }

  lemma LineErrors(env: Env, k: Core, line: bytes)
    ensures Errors(Line(env, k, line).sent) == Errors(k.sent)
  {
    var payload := DataPayload(line);
    if payload == DONE {
      DoneErrors(k);
    } else if payload != "" && env.parse(payload).Some? {
      var c := env.parse(payload).value;
      var noted := NoteChunk(k, c);
      if !k.sentStart {
        ErrorsPush(noted.sent, MessageStart(noted.id, if noted.usageIn == 0 then env.inputEst else noted.usageIn));
      }
      EmitErrors(Start(env, noted), if c.choices == [] then "" else c.choices[0].content);
    }
  }

  lemma EmitErrors(k: Core, text: bytes)
    ensures Errors(Emit(k, text).sent) == Errors(k.sent)
  {
    if text != "" {
      if !k.sentBlock {
        ErrorsPush(k.sent, BlockStart);
      }
      ErrorsPush(OpenBlock(k).sent, Delta(text));
    }
  }

  lemma {:induction false} LinesErrors(env: Env, k: Core, lines: seq<bytes>)
    ensures Errors(AllLines(env, k, lines).sent) == Errors(k.sent)
    decreases lines
  {
    if lines == [] {
    } else {
      LineErrors(env, k, lines[0]);
      LinesErrors(env, Line(env, k, lines[0]), lines[1..]);
    }
  }

  function Messages(ops: seq<Op>): seq<bytes> {
    if ops == [] then [] else (if ops[0].Failure? then [ops[0].message] else []) + Messages(ops[1..])
  }

  /** What the ops bring, and the failures among them, in their order. */
  lemma {:induction false} OpsJoin(a: seq<Op>, b: seq<Op>)
    ensures Received(a + b) == Received(a) + Received(b)
    ensures Messages(a + b) == Messages(a) + Messages(b)
  {
    if a == [] {
      assert a + b == b;
    } else {
      assert (a + b)[1..] == a[1..] + b && (a + b)[0] == a[0];
      OpsJoin(a[1..], b);
      Associates(Data(a[0]), Received(a[1..]), Received(b));
      Associates(if a[0].Failure? then [a[0].message] else [], Messages(a[1..]), Messages(b));
    }
  }

  lemma OneOp(data: bytes)
    ensures Received([Piece(data)]) == data && Messages([Piece(data)]) == []
    ensures Received([Failure(data)]) == "" && Messages([Failure(data)]) == [data]
  {
    assert [Piece(data)][1..] == [] && [Failure(data)][1..] == [];
  }

  /** Every transport failure is told, in order, with its own message, and nothing else is an error. */
  lemma {:induction false} FailuresAreTold(env: Env, w: Writer, ops: seq<Op>)
    requires !w.passthrough
    ensures Errors(Run(env, w, ops).core.sent) == Errors(w.core.sent) + Messages(ops)
    decreases ops
  {
    if ops == [] {
    } else {
      var next := Apply(env, w, ops[0]);
      match ops[0] {
        case Piece(p) =>
          LinesErrors(env, w.core, Lines(w.buf + p));
          EmptyFirst(Messages(ops[1..]));
        case Failure(message) =>
          ErrorsPush(w.core.sent, Error(message));
          Associates(Errors(w.core.sent), [message], Messages(ops[1..]));
      }
      FailuresAreTold(env, next, ops[1..]);
    }
  }

  /** After an error status the client gets the upstream's bytes as they are, and no events. */
  lemma {:induction false} PassesThrough(env: Env, w: Writer, ops: seq<Op>)
    requires w.passthrough
    ensures Run(env, w, ops) == w.(raw := w.raw + Received(ops))
    decreases ops
  {
    if ops == [] {
      assert w.raw + "" == w.raw;
    } else {
      match ops[0] {
        case Piece(p) => Associates(w.raw, p, Received(ops[1..]));
        case Failure(_) => EmptyFirst(Received(ops[1..]));
      }
      PassesThrough(env, Apply(env, w, ops[0]), ops[1..]);
    }
  }

  // ----- The reported token count.

  /** The completion count a line reports, 0 when it reports none. */
  function CountIn(env: Env, line: bytes): (n: int)
    ensures n >= 0
  {
    var payload := DataPayload(line);
    if payload == "" || payload == DONE then 0
    else match env.parse(payload)
      case None => 0
      case Some(c) => if c.usage.Some? && c.usage.value.completion > 0 then c.usage.value.completion else 0
  }

  lemma CountInIs(env: Env, line: bytes, n: int)
    requires n > 0
    ensures CountIn(env, line) == n
            <==> && "data:" <= line && TrimSpace(line[5..]) != "" && TrimSpace(line[5..]) != "[DONE]"
                 && env.parse(TrimSpace(line[5..])).Some?
                 && var usage := env.parse(TrimSpace(line[5..])).value.usage;
                    usage.Some? && usage.value.completion == n
  {
  }

  lemma LineReports(env: Env, k: Core, line: bytes)
    ensures Line(env, k, line).usageOut == if CountIn(env, line) > 0 then CountIn(env, line) else k.usageOut
    ensures AllLines(env, k, [line]) == Line(env, k, line)
  {
    assert [line][1..] == [];
  }

  /** The count kept is the one the last line to report any reported; 0 when none did. */
  lemma {:induction false} UsageOutIsLastReported(env: Env, lines: seq<bytes>, j: int)
    requires -1 <= j < |lines| && (j >= 0 ==> CountIn(env, lines[j]) > 0)
    requires forall i :: j < i < |lines| ==> CountIn(env, lines[i]) == 0
    ensures AllLines(env, FRESH_CORE, lines).usageOut == if j >= 0 then CountIn(env, lines[j]) else 0
  {
    if lines == [] {
    } else {
      var before, last := lines[..|lines| - 1], lines[|lines| - 1];
      assert lines == before + [last];
      AllLinesAppend(env, FRESH_CORE, before, [last]);
      LineReports(env, AllLines(env, FRESH_CORE, before), last);
      if j < |before| {
        UsageOutIsLastReported(env, before, j);
      }
    }
  }

  /**
    The end-of-stream line stops the message with the last positive upstream
    count seen before it; with none, a quarter of the text delivered before
    it, at least one.
   */
  lemma DoneReports(env: Env, lines: seq<bytes>, done: bytes, j: int)
    requires "data:" <= done && TrimSpace(done[5..]) == "[DONE]"
    requires -1 <= j < |lines| && (j >= 0 ==> CountIn(env, lines[j]) > 0)
    requires forall i :: j < i < |lines| ==> CountIn(env, lines[i]) == 0
    ensures var before := AllLines(env, FRESH_CORE, lines).sent;
            var tokens := if j >= 0 then CountIn(env, lines[j]) else Max(1, |Text(before)| / 4);
            AllLines(env, FRESH_CORE, lines + [done]).sent == before + [MessageDelta(tokens), MessageStop]
  {
    AllLinesAppend(env, FRESH_CORE, lines, [done]);
    var before := AllLines(env, FRESH_CORE, lines);
    assert AllLines(env, before, [done]) == Line(env, before, done);
    UsageOutIsLastReported(env, lines, j);
    StreamKeepsProtocolAndText(env, FRESH_CORE, lines);
  }

  /**
    What each line sends: the end-of-stream line the two events of the stop; a
    chunk that can be decoded the start, if there was none, and its text, if
    there is some, in the one block; any other line nothing.
   */
  lemma LineSends(env: Env, lines: seq<bytes>, i: nat)
    requires i < |lines|
    ensures var before := AllLines(env, FRESH_CORE, lines[..i]).sent;
            var after := AllLines(env, FRESH_CORE, lines[..i + 1]).sent;
            var payload := if "data:" <= lines[i] then TrimSpace(lines[i][5..]) else "";
            if payload == "[DONE]" then
              |after| == |before| + 2 && before <= after
              && after[|before|].MessageDelta? && after[|before| + 1] == MessageStop
            else if payload == "" || env.parse(payload).None? then after == before
            else
              var c := env.parse(payload).value;
              var text := if c.choices == [] then "" else c.choices[0].content;
              exists start: seq<Event> {:trigger before + start} ::
                && (if exists k :: 0 <= k < |before| && before[k].MessageStart? then start == []
                    else |start| == 1 && start[0].MessageStart?)
                && after == before + start
                            + if text == "" then []
                              else (if exists k :: 0 <= k < |before| && before[k].BlockStart? then [] else [BlockStart])
                                   + [Delta(text)]
  {
    var k := AllLines(env, FRESH_CORE, lines[..i]);
    StreamKeepsProtocolAndText(env, FRESH_CORE, lines[..i]);
    assert lines[..i + 1] == lines[..i] + [lines[i]];
    AllLinesAppend(env, FRESH_CORE, lines[..i], [lines[i]]);
    LineReports(env, k, lines[i]);
    var payload := DataPayload(lines[i]);
    if payload != "" && payload != DONE && env.parse(payload).Some? {
      ChunkSends(env, k, env.parse(payload).value);
    }
  }

  lemma ChunkSends(env: Env, k: Core, c: Chunk)
    ensures var noted := NoteChunk(k, c);
            var text := if c.choices == [] then "" else c.choices[0].content;
            var start := if k.sentStart then []
                         else [MessageStart(noted.id, if noted.usageIn == 0 then env.inputEst else noted.usageIn)];
            Emit(Start(env, noted), text).sent
            == k.sent + start + if text == "" then [] else (if k.sentBlock then [] else [BlockStart]) + [Delta(text)]
  {
  }
}
