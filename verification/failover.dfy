/**
  The failover loops: the relay's and the Anthropic one, whose transport error
  is never cleared, the Gemini one, which clears it on every attempt, and the
  legacy proxy's recursion over keys.  What each upstream does is an argument.
 */
module Failover {
  import opened Bytes
  import opened Rotation

  /** One upstream attempt: a transport error, or a response. */
  datatype Attempt = Attempt(transportError: bool, status: int, body: bytes)

  datatype Mark = Failure(channel: int) | Success(channel: int)

  datatype Answer = Relayed(status: int, body: bytes) | BadGateway

  /** The answer, the marks in order, and how many targets were tried. */
  datatype Outcome = Outcome(answer: Answer, marks: seq<Mark>, tried: nat)

  /** `isChannelError`. */
  predicate ChannelError(status: int) {
    status == 401 || status == 403 || status == 429 || status >= 500
  }

  predicate Fails(a: Attempt) {
    a.transportError || ChannelError(a.status)
  }

  // ----- What the loops are for: the first attempt that does not fail.

  function FirstGood(attempts: seq<Attempt>): (w: nat)
    ensures w <= |attempts|
    ensures forall i :: 0 <= i < w ==> Fails(attempts[i])
    ensures w < |attempts| ==> !Fails(attempts[w])
  {
    if attempts == [] || !Fails(attempts[0]) then 0 else 1 + FirstGood(attempts[1..])
  }

  function Failures(channels: seq<int>): seq<Mark> {
    seq(|channels|, i requires 0 <= i < |channels| => Failure(channels[i]))
  }

  /** One failure for every attempt before the winner, and a success for the winner. */
  function MarksUpTo(channels: seq<int>, w: nat): seq<Mark>
    requires w <= |channels|
  {
    Failures(channels[..w]) + if w < |channels| then [Success(channels[w])] else []
  }

  // ----- What an outcome means, in status codes.

  /** A response that is not the channel's own failure. */
  predicate Good(a: Attempt) {
    !a.transportError && a.status < 500 && a.status != 401 && a.status != 403 && a.status != 429
  }

  /** The marks of the targets tried: all failed but for the last one, which may have succeeded. */
  predicate Marked(channels: seq<int>, o: Outcome, good: seq<bool>)
    requires |channels| == |good|
  {
    && |o.marks| == o.tried <= |channels|
    && (forall i :: 0 <= i < o.tried ==> o.marks[i] == if good[i] then Success(channels[i]) else Failure(channels[i]))
    && (forall i :: 0 <= i < o.tried - 1 ==> !good[i])
  }

  /** The attempts that are good, and if errors stick come before any transport error. */
  function Goods(attempts: seq<Attempt>, sticky: bool): (good: seq<bool>)
    ensures |good| == |attempts|
    ensures forall i :: 0 <= i < |attempts| ==>
              (good[i] <==> && !attempts[i].transportError && attempts[i].status < 500
                            && attempts[i].status != 401 && attempts[i].status != 403 && attempts[i].status != 429
                            && (sticky ==> forall j :: 0 <= j < i ==> !attempts[j].transportError))
  {
    seq(|attempts|, i requires 0 <= i < |attempts| =>
      Good(attempts[i]) && (sticky ==> forall j :: 0 <= j < i ==> !attempts[j].transportError))
  }

  /**
    The Gemini loop stops at its first success, before the conversion that
    breaks, or when the targets run out; a success answers, and nothing else.
   */
  predicate GeminiMeans(channels: seq<int>, attempts: seq<Attempt>, broken: nat, o: Outcome)
    requires |channels| == |attempts|
  {
    var good := Goods(attempts, false);
    && Marked(channels, o, good) && (broken < |channels| ==> o.tried <= broken)
    && (o.tried == |channels| || o.tried == broken || (o.tried > 0 && good[o.tried - 1]))
    && o.answer == if o.tried > 0 && good[o.tried - 1] && attempts[o.tried - 1].status != 0
                   then Relayed(attempts[o.tried - 1].status, attempts[o.tried - 1].body) else BadGateway
  }

  /**
    The other loops stop at their first success or when the targets run out; a
    transport error answers 502, a success with its status, and neither with
    the status that was never set.
   */
  predicate StickyMeans(channels: seq<int>, attempts: seq<Attempt>, unset: int, o: Outcome)
    requires |channels| == |attempts|
  {
    var good := Goods(attempts, true);
    && Marked(channels, o, good)
    && (o.tried == |channels| || (o.tried > 0 && good[o.tried - 1]))
    && o.answer == if exists i :: 0 <= i < o.tried && attempts[i].transportError then BadGateway
                   else if o.tried > 0 && good[o.tried - 1]
                   then Relayed(if attempts[o.tried - 1].status == 0 then unset else attempts[o.tried - 1].status,
                                attempts[o.tried - 1].body)
                   else Relayed(unset, "")
  }

  /** No loop relays a status that counts against the channel. */
  lemma NeverRelaysFailures(channels: seq<int>, attempts: seq<Attempt>, broken: nat, unset: int, o: Outcome)
    requires |channels| == |attempts| && o.answer.Relayed?
    requires GeminiMeans(channels, attempts, broken, o) || StickyMeans(channels, attempts, unset, o)
    ensures var status := o.answer.status;
            status == unset || (status < 500 && status != 401 && status != 403 && status != 429)
  {
  }

  lemma GeminiOutcomeMeans(channels: seq<int>, attempts: seq<Attempt>, broken: nat)
    requires |channels| == |attempts|
    ensures GeminiMeans(channels, attempts, broken, GeminiOutcome(channels, attempts, broken))
  {
    var w := FirstGood(attempts);
    MarksAre(channels, w);
    FailuresAre(channels, if broken <= |channels| then broken else 0);
    FailuresAre(channels, |channels|);
    assert channels[..|channels|] == channels;
  }

  lemma FailuresAre(channels: seq<int>, k: nat)
    requires k <= |channels|
    ensures |Failures(channels[..k])| == k
    ensures forall i :: 0 <= i < k ==> Failures(channels[..k])[i] == Failure(channels[i])
  {
  }

  lemma MarksAre(channels: seq<int>, w: nat)
    requires w <= |channels|
    ensures var marks := MarksUpTo(channels, w);
            && |marks| == (if w < |channels| then w + 1 else w)
            && (forall i :: 0 <= i < w ==> marks[i] == Failure(channels[i]))
            && (w < |channels| ==> marks[w] == Success(channels[w]))
  {
    FailuresAre(channels, w);
  }

  lemma StickyOutcomeMeans(channels: seq<int>, attempts: seq<Attempt>, unset: int)
    requires |channels| == |attempts|
    ensures StickyMeans(channels, attempts, unset, StickyOutcome(channels, attempts, unset))
  {
    var w := FirstGood(attempts);
    MarksAre(channels, w);
    FailuresAre(channels, |channels|);
    assert channels[..|channels|] == channels;
  }

  // ----- The Gemini loop.

  /** The winner answers, unless a request conversion breaks at `broken` before it. */
  function GeminiOutcome(channels: seq<int>, attempts: seq<Attempt>, broken: nat): Outcome
    requires |channels| == |attempts|
  {
    var w, n := FirstGood(attempts), |attempts|;
    if broken <= w && broken < n then Outcome(BadGateway, Failures(channels[..broken]), broken)
    else if w == n then Outcome(BadGateway, Failures(channels), n)
    else
      var a := attempts[w];
      Outcome(if a.status == 0 then BadGateway else Relayed(a.status, a.body), MarksUpTo(channels, w), w + 1)
  }

  /**
    `channels[i]` is the channel of the i-th target and `attempts[i]` what it
    answers; a request conversion that fails, at `broken`, ends the loop.
   */
  method GeminiLoop(channels: seq<int>, attempts: seq<Attempt>, broken: nat) returns (o: Outcome)
    requires |channels| == |attempts|
    ensures o == GeminiOutcome(channels, attempts, broken) && GeminiMeans(channels, attempts, broken, o)
  {
    var marks: seq<Mark>, tried := [], 0;
    var respStatus, respBody := 0, "";
    ghost var w := FirstGood(attempts);
    for i := 0 to |attempts|
      invariant i <= w && i <= broken && tried == i
      invariant marks == Failures(channels[..i]) && respStatus == 0
    {
      if i == broken {
        break;
      }
      var lastErr := attempts[i].transportError;
      tried := tried + 1;
      if lastErr || ChannelError(attempts[i].status) {
        marks := marks + [Failure(channels[i])];
        continue;
      }
      marks := marks + [Success(channels[i])];
      respStatus, respBody := attempts[i].status, attempts[i].body;
      break;
    }
    assert channels[..|channels|] == channels;
    o := Outcome(if respStatus == 0 then BadGateway else Relayed(respStatus, respBody), marks, tried);
    GeminiOutcomeMeans(channels, attempts, broken);
  }

  // ----- The relay's loop and the Anthropic one.

  /** Some attempt before `k` raised a transport error. */
  predicate ErrorBefore(attempts: seq<Attempt>, k: nat)
    requires k <= |attempts|
  {
    exists i :: 0 <= i < k && attempts[i].transportError
  }

  /**
    With a transport error before the winner the success goes unnoticed: every
    target is tried and marked failed.  Without one, the winner answers, or
    `unset` is the status when there is none.
   */
  function StickyOutcome(channels: seq<int>, attempts: seq<Attempt>, unset: int): Outcome
    requires |channels| == |attempts|
  {
    var w, n := FirstGood(attempts), |attempts|;
    if ErrorBefore(attempts, w) then Outcome(BadGateway, Failures(channels), n)
    else if w == n then Outcome(Relayed(unset, ""), Failures(channels), n)
    else
      var a := attempts[w];
      Outcome(Relayed(if a.status == 0 then unset else a.status, a.body), MarksUpTo(channels, w), w + 1)
  }

  /** The response is written with status 0 when nothing set it. */
  method RelayLoop(channels: seq<int>, attempts: seq<Attempt>) returns (o: Outcome)
    requires |channels| == |attempts|
    ensures o == StickyOutcome(channels, attempts, 0) && StickyMeans(channels, attempts, 0, o)
  {
    StickyOutcomeMeans(channels, attempts, 0);
    var lastErr, respStatus, respBody, marks, tried := StickyLoop(channels, attempts);
    if lastErr {
      return Outcome(BadGateway, marks, tried);
    }
    o := Outcome(Relayed(respStatus, respBody), marks, tried);
  }

  method AnthropicLoop(channels: seq<int>, attempts: seq<Attempt>) returns (o: Outcome)
    requires |channels| == |attempts|
    ensures o == StickyOutcome(channels, attempts, 502) && StickyMeans(channels, attempts, 502, o)
  {
    StickyOutcomeMeans(channels, attempts, 502);
    var lastErr, respStatus, respBody, marks, tried := StickyLoop(channels, attempts);
    if lastErr {
      return Outcome(BadGateway, marks, tried);
    }
    if respStatus == 0 {
      respStatus := 502;
    }
    o := Outcome(Relayed(respStatus, respBody), marks, tried);
  }

  /** The loop the two handlers have in common. */
  method StickyLoop(channels: seq<int>, attempts: seq<Attempt>)
    returns (lastErr: bool, respStatus: int, respBody: bytes, marks: seq<Mark>, tried: nat)
    requires |channels| == |attempts|
    ensures var w, n := FirstGood(attempts), |attempts|;
            && lastErr == ErrorBefore(attempts, w)
            && (lastErr || w == n ==> respStatus == 0 && respBody == "" && marks == Failures(channels) && tried == n)
            && (!lastErr && w < n ==> respStatus == attempts[w].status && respBody == attempts[w].body
                                      && marks == MarksUpTo(channels, w) && tried == w + 1)
  {
    lastErr, respStatus, respBody, marks, tried := false, 0, "", [], 0;
    ghost var w := FirstGood(attempts);
    for i := 0 to |attempts|
      invariant tried == i && marks == Failures(channels[..i])
      invariant lastErr == ErrorBefore(attempts, i)
      invariant i <= w || ErrorBefore(attempts, w)
      invariant respStatus == 0 && respBody == ""
    {
      if attempts[i].transportError {
        lastErr := true;
      }
      tried := tried + 1;
      var failed := lastErr || ChannelError(attempts[i].status);
      assert channels[..i + 1] == channels[..i] + [channels[i]];
      if !failed {
        marks := marks + [Success(channels[i])];
        respStatus, respBody := attempts[i].status, attempts[i].body;
        break;
      }
      marks := marks + [Failure(channels[i])];
    }
    assert channels[..|channels|] == channels;
  }

  // ----- How they compare.

  /** Every response that arrived has a status. */
  predicate Answered(attempts: seq<Attempt>) {
    forall i :: 0 <= i < |attempts| ==> attempts[i].transportError || attempts[i].status != 0
  }

  /** A transport error hides the first good answer: it comes before it. */
  predicate HidesWinner(attempts: seq<Attempt>) {
    exists i, j :: && 0 <= i < j < |attempts| && attempts[i].transportError && Good(attempts[j])
                   && forall k :: 0 <= k < i ==> !Good(attempts[k])
  }

  lemma Hides(attempts: seq<Attempt>)
    ensures var w := FirstGood(attempts);
            && (w < |attempts| <==> exists i :: 0 <= i < |attempts| && Good(attempts[i]))
            && (HidesWinner(attempts) <==> w < |attempts| && ErrorBefore(attempts, w))
  {
    var w := FirstGood(attempts);
    assert forall i :: 0 <= i < |attempts| ==> (Good(attempts[i]) <==> !Fails(attempts[i]));
    if w < |attempts| && ErrorBefore(attempts, w) {
      var i :| 0 <= i < w && attempts[i].transportError;
      assert Good(attempts[w]);
    }
  }

  /**
    The Gemini loop answers 502 exactly when no target gives a good answer.
    The other two mark the channels as it does exactly when no transport error
    hides the first good answer, and answer as it does exactly when moreover
    there is a good answer, or some target raised a transport error.
   */
  lemma LoopsAgree(channels: seq<int>, attempts: seq<Attempt>, unset: int)
    requires |channels| == |attempts| && Answered(attempts)
    ensures var gemini := GeminiOutcome(channels, attempts, |attempts|);
            var sticky := StickyOutcome(channels, attempts, unset);
            var won := exists i :: 0 <= i < |attempts| && Good(attempts[i]);
            var error := exists i :: 0 <= i < |attempts| && attempts[i].transportError;
            && (gemini.answer == BadGateway <==> !won)
            && (sticky.marks == gemini.marks <==> !HidesWinner(attempts))
            && (sticky.answer == gemini.answer <==> !HidesWinner(attempts) && (won || error))
  {
    var w := FirstGood(attempts);
    Hides(attempts);
    if w < |attempts| {
      assert MarksUpTo(channels, w)[w] == Success(channels[w]);
      assert Failures(channels)[w] == Failure(channels[w]);
    }
  }

  // ----- The legacy proxy.

  class ProxyRun {
    const keys: seq<bytes>
    const startIdx: nat
    /** Whether the upstream connection fails on the first, second, ... attempt. */
    const fails: seq<bool>
    var tries: nat
    var used: seq<bytes>
    var badGateway: bool

    constructor (keys: seq<bytes>, startIdx: nat, fails: seq<bool>)
      requires |fails| >= |keys| && |fails| > 0
      ensures this.keys == keys && this.startIdx == startIdx && this.fails == fails
      ensures tries == 0 && used == [] && !badGateway
    {
      this.keys, this.startIdx, this.fails := keys, startIdx, fails;
      tries, used, badGateway := 0, [], false;
    }

    /** How many attempts there can be: one per key, at least one. */
    function Limit(): nat {
      if |keys| <= 1 then 1 else |keys|
    }

    /** The position in the key list of the attempt `j`. */
    function Position(j: nat): nat {
      if keys == [] then 0 else (startIdx + j) % |keys|
    }

    function KeyAt(j: nat): bytes {
      if keys == [] then "" else keys[Position(j)]
    }

    lemma PositionsDiffer(i: nat, j: nat)
      requires i < j < |keys|
      ensures Position(i) != Position(j)
    {
      if Position(i) == Position(j) {
        SameRemainder(startIdx + i, startIdx + j, |keys|);
      }
    }

    ghost predicate Walking()
      reads this
    {
      && tries == |used| <= Limit() <= |fails| && !badGateway
      && (forall j :: 0 <= j < tries ==> used[j] == KeyAt(j) && fails[j])
    }

    method Serve(cur: bytes)
      requires Walking() && tries < Limit() && cur == KeyAt(tries)
      modifies this
      decreases Limit() - tries
      ensures old(tries) < tries == |used| <= Limit()
      ensures forall j :: 0 <= j < tries ==> used[j] == KeyAt(j)
      ensures forall j :: 0 <= j < tries - 1 ==> fails[j]
      ensures badGateway <==> fails[tries - 1]
      ensures badGateway ==> tries == Limit()
    {
      var attempt := tries;
      tries := tries + 1;
      used := used + [cur];
      if fails[attempt] {
        if |keys| > 1 && tries < |keys| {
          var next := keys[(startIdx + tries) % |keys|];
          Serve(next);
          return;
        }
        badGateway := true;
      }
    }

    /**
      A whole request: keys are tried in cyclic order from the starting one,
      each position at most once, until one connects; the answer is 502
      exactly when all of them were tried and none connected.
     */
    method Run()
      requires tries == 0 && used == [] && !badGateway && |fails| >= |keys| && |fails| > 0
      modifies this
      ensures 1 <= tries == |used| <= if |keys| <= 1 then 1 else |keys|
      ensures forall j :: 0 <= j < tries ==> used[j] == if keys == [] then "" else keys[(startIdx + j) % |keys|]
      ensures forall j :: 0 <= j < tries - 1 ==> fails[j]
      ensures !fails[tries - 1] || tries == if |keys| <= 1 then 1 else |keys|
      ensures badGateway <==> forall j :: 0 <= j < (if |keys| <= 1 then 1 else |keys|) ==> fails[j]
      ensures forall i, j :: 0 <= i < j < tries ==> Position(i) != Position(j)
    {
      var first := "";
      if |keys| > 0 {
        first := keys[startIdx % |keys|];
      }
      Serve(first);
      forall i, j | 0 <= i < j < tries
        ensures Position(i) != Position(j)
      {
        PositionsDiffer(i, j);
      }
    }
  }
}
