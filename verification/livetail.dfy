/**
  Tailing the access log: every tick the file is read from where the last tick
  stopped, in 64 KiB reads, and every complete non-blank line is sent once.
 */
module LiveTail {
  import opened Bytes
  import opened Framing
  import opened Sequences

  const BUF: nat := 64 * 1024

  datatype State = State(offset: nat, leftover: bytes, sent: seq<bytes>)

  const FRESH := State(0, "", [])

  /** Reading on. */
  function Fed(t: State, piece: bytes): State {
    State(t.offset + |piece|, Rest(t.leftover + piece), t.sent + NonBlank(Lines(t.leftover + piece)))
  }

  /** What the tick finds: no file, one it cannot open or look at, one it cannot seek in, or its bytes. */
  datatype Found = Missing | Unopened | Unseekable | Opened(data: bytes)

  /** From the beginning, what was sent being sent. */
  function Restarted(t: State): State {
    State(0, "", t.sent)
  }

  /** What one tick does. */
  function Ticked(t: State, file: Found): State {
    match file
    case Missing => Restarted(t)
    case Unopened => t
    case Unseekable => Restarted(t)
    case Opened(data) => if |data| < t.offset then Fed(Restarted(t), data) else Fed(t, data[t.offset..])
  }

  lemma FedTwice(t: State, a: bytes, b: bytes)
    ensures Fed(Fed(t, a), b) == Fed(t, a + b)
  {
    var first, later := Lines(t.leftover + a), Lines(Rest(t.leftover + a) + b);
    Associates(t.leftover, a, b);
    LinesAppend(t.leftover + a, b);
    NonBlankAppend(first, later);
    Associates(t.sent, NonBlank(first), NonBlank(later));
  }

  lemma FedOn(t: State, unread: bytes, piece: bytes, rest: bytes)
    requires unread == piece + rest
    ensures Fed(Fed(t, piece), rest) == Fed(t, unread)
  {
    FedTwice(t, piece, rest);
  }

  lemma FedPiece(t: State, data: bytes, n: nat)
    requires t.offset + n <= |data|
    ensures Fed(Fed(t, data[t.offset..t.offset + n]), data[t.offset + n..]) == Fed(t, data[t.offset..])
  {
    assert data[t.offset..] == data[t.offset..t.offset + n] + data[t.offset + n..];
    FedOn(t, data[t.offset..], data[t.offset..t.offset + n], data[t.offset + n..]);
  }

  lemma FedNothing(t: State)
    requires '\n' !in t.leftover
    ensures Fed(t, "") == t
  {
    assert t.leftover + "" == t.leftover;
    NoLineYet(t.leftover);
  }

  class Tail {
    var offset: nat
    var leftover: bytes
    var sent: seq<bytes>

    function View(): State
      reads this
    {
      State(offset, leftover, sent)
    }

    constructor ()
      ensures Valid() && View() == FRESH
    {
      offset, leftover, sent := 0, "", [];
    }

    /** What is left over never holds a newline. */
    predicate Valid()
      reads this
    {
      '\n' !in leftover
    }

    method Tick(file: Found)
      requires Valid()
      modifies this
      ensures Valid()
      ensures View() == Ticked(old(View()), file)
    {
      if file.Missing? {
        offset := 0;
        leftover := "";
        return;
      }
      if file.Unopened? {
        return;
      }
      if file.Unseekable? {
        offset := 0;
        leftover := "";
        return;
      }
      var data := file.data;
      if |data| < offset {
        offset := 0;
        leftover := "";
      }
      ReadAll(data);
    }

    /** Reads until a read comes back short. */
    method ReadAll(data: bytes)
      requires Valid() && offset <= |data|
      modifies this
      ensures Valid() && View() == Fed(old(View()), data[old(offset)..])
    {
      ghost var final := Fed(View(), data[offset..]);
      while true
        invariant Valid() && offset <= |data|
        invariant Fed(View(), data[offset..]) == final
        decreases |data| - offset
      {
        var n := if |data| - offset < BUF then |data| - offset else BUF;
        if n > 0 {
          ReadOn(data, n);
        }
        if n < BUF {
          break;
        }
      }
      assert data[offset..] == "";
      FedNothing(View());
    }

    method ReadOn(data: bytes, n: nat)
      requires Valid() && offset + n <= |data|
      modifies this
      ensures Valid() && offset == old(offset) + n
      ensures Fed(View(), data[offset..]) == Fed(old(View()), data[old(offset)..])
    {
      FedPiece(View(), data, n);
      Take(data[offset..offset + n]);
    }

    /** One read: all complete lines are sent, the unfinished one is kept. */
    method Take(piece: bytes)
      modifies this
      ensures Valid() && View() == Fed(old(View()), piece)
    {
      offset := offset + |piece|;
      var data := leftover + piece;
      var lines := Split(data, '\n');
      SplitIsLines(data);
      Reassemble(data);
      leftover := lines[|lines| - 1];
      for i := 0 to |lines| - 1
        invariant leftover == Rest(data) && offset == old(offset) + |piece|
        invariant sent == old(sent) + NonBlank(lines[..i])
      {
        var line := TrimSpace(lines[i]);
        NonBlankStep(lines, i);
        if line == "" {
          continue;
        }
        sent := sent + [line];
      }
    }
  }

  function Ticks(t: State, files: seq<bytes>): State
    decreases files
  {
    if files == [] then t else Ticks(Ticked(t, Opened(files[0])), files[1..])
  }

  /** Each version of the file extends the one before: the log is only appended to. */
  predicate Growing(files: seq<bytes>) {
    forall i :: 0 < i < |files| ==> files[i - 1] <= files[i]
  }

  /**
    Whenever the ticks fall while an append-only log grows, every complete
    line has been sent exactly once, in order, and the unfinished one is kept.
   */
  lemma {:induction false} EveryLineOnce(seen: bytes, files: seq<bytes>)
    requires Growing([seen] + files)
    ensures var last := ([seen] + files)[|files|];
            Ticks(Sent(seen), files) == Sent(last)
    decreases files
  {
    if files == [] {
    } else {
      var next := files[0];
      GrowingTail(seen, files);
      NextVersion(seen, next);
      assert [next] + files[1..] == files;
      EveryLineOnce(next, files[1..]);
    }
  }

  /**
    Without a file, or with one that cannot be sought in, the tail starts over:
    the next file is sent from its first line.  A file that cannot be opened or
    looked at costs nothing: the next tick goes on where the last one stopped.
   */
  lemma BadTicks(t: State, data: bytes)
    ensures Ticked(Ticked(t, Missing), Opened(data)).sent == t.sent + NonBlank(Lines(data))
    ensures Ticked(Ticked(t, Unseekable), Opened(data)).sent == t.sent + NonBlank(Lines(data))
    ensures Ticked(Ticked(t, Unopened), Opened(data)) == Ticked(t, Opened(data))
    ensures Ticked(t, Missing).sent == Ticked(t, Unseekable).sent == Ticked(t, Unopened).sent == t.sent
  {
    EmptyFirst(data);
    assert data[0..] == data;
  }

  /** A shorter file is another file: it is sent from its first line. */
  lemma ShorterIsReread(t: State, data: bytes)
    requires |data| < t.offset
    ensures var v := Ticked(t, Opened(data));
            v.sent == t.sent + NonBlank(Lines(data)) && v.offset == |data| && v.leftover == Rest(data)
  {
    EmptyFirst(data);
  }

  /** The lines sent are those that are not blank, each trimmed, in order. */
  lemma SendsTrimmed(lines: seq<bytes>, line: bytes)
    ensures NonBlank([]) == []
    ensures NonBlank(lines + [line]) == NonBlank(lines) + if TrimSpace(line) == "" then [] else [TrimSpace(line)]
  {
    NonBlankAppend(lines, [line]);
    assert [line][1..] == [];
  }

  /** The state after one tick over the bytes `seen`. */
  function Sent(seen: bytes): State {
    State(|seen|, Rest(seen), NonBlank(Lines(seen)))
  }

  lemma NextVersion(seen: bytes, next: bytes)
    requires seen <= next
    ensures Ticked(Sent(seen), Opened(next)) == Sent(next)
  {
    var more := next[|seen|..];
    calc {
      Ticked(Sent(seen), Opened(next));
      Fed(Sent(seen), more);
      { SentFed(seen); }
      Fed(Fed(FRESH, seen), more);
      { FedOn(FRESH, next, seen, more); }
      Fed(FRESH, next);
      { SentFed(next); }
      Sent(next);
    }
  }

  lemma GrowingTail(seen: bytes, files: seq<bytes>)
    requires files != [] && Growing([seen] + files)
    ensures seen <= files[0] && Growing(files)
  {
    var all := [seen] + files;
    assert seen == all[0] && files[0] == all[1];
    forall i | 0 < i < |files|
      ensures files[i - 1] <= files[i]
    {
      assert files[i - 1] == all[i] && files[i] == all[i + 1];
    }
  }

  lemma SentFed(seen: bytes)
    ensures Sent(seen) == Fed(FRESH, seen)
  {
    assert "" + seen == seen && [] + NonBlank(Lines(seen)) == NonBlank(Lines(seen));
  }

  // ----- A log that is cut short and grows again between two ticks.

  /**
    The file is as long as before or longer: the tick cannot see that its first
    bytes `head` are not those it has read.  It reads the new file as if from
    the beginning, whatever stands behind `head`, exactly when `head` holds no
    complete line worth sending and its unfinished one is the one kept.
   */
  lemma RegrownIsReread(t: State, head: bytes)
    requires t.offset == |head| && '\n' !in t.leftover
    ensures (forall tail :: Rereads(t, head, tail)) <==> NonBlank(Lines(head)) == [] && t.leftover == Rest(head)
  {
    if NonBlank(Lines(head)) == [] && t.leftover == Rest(head) {
      forall tail
        ensures Rereads(t, head, tail)
      {
        NothingSkipped(t, head, tail);
      }
    } else {
      SkipsNothing(t, head);
      assert head + "" == head;
      assert !Rereads(t, head, "");
    }
  }

  /** The tick does what reading the whole file from the beginning does. */
  predicate Rereads(t: State, head: bytes, tail: bytes) {
    Ticked(t, Opened(head + tail)) == Fed(Restarted(t), head + tail)
  }

  lemma NothingSkipped(t: State, head: bytes, tail: bytes)
    requires t.offset == |head| && NonBlank(Lines(head)) == [] && t.leftover == Rest(head)
    ensures Rereads(t, head, tail)
  {
    SkipsHead(t, head, tail);
    EmptyFirst(NonBlank(Lines(Rest(head) + tail)));
  }

  /** With nothing behind `head` the tick sends nothing and keeps what it kept. */
  lemma SkipsNothing(t: State, head: bytes)
    requires t.offset == |head| && '\n' !in t.leftover
    ensures Ticked(t, Opened(head)) == t
    ensures Fed(Restarted(t), head) == t ==> NonBlank(Lines(head)) == [] && t.leftover == Rest(head)
  {
    assert head[t.offset..] == "";
    FedNothing(t);
    EmptyFirst(head);
    if Fed(Restarted(t), head) == t {
      assert |t.sent + NonBlank(Lines(head))| == |t.sent|;
    }
  }

  /** When the line kept is the one `head` ends in, exactly the complete lines of `head` are lost. */
  lemma SkipsHead(t: State, head: bytes, tail: bytes)
    requires t.offset == |head| && t.leftover == Rest(head)
    ensures var seen, whole := Ticked(t, Opened(head + tail)), Fed(Restarted(t), head + tail);
            && seen.offset == whole.offset && seen.leftover == whole.leftover
            && seen.sent == t.sent + NonBlank(Lines(Rest(head) + tail))
            && whole.sent == t.sent + (NonBlank(Lines(head)) + NonBlank(Lines(Rest(head) + tail)))
  {
    assert (head + tail)[t.offset..] == tail;
    EmptyFirst(head + tail);
    LinesAppend(head, tail);
    NonBlankAppend(Lines(head), Lines(Rest(head) + tail));
  }
}
