# li-api: verified core

li-api is a gateway in front of language-model providers. A request presents a
token, passes the rate limiters and two quota checks, is sent to one of the
channels that offer its model, and is charged when the answer is back. This
project models the parts that carry state over unbounded runs, in the form the
Go code gives them (in-place slices, maps, mutexes, atomic counters, stream
writers), and proves what they are for.

Bytes are characters: a Go string is a Dafny string, and nothing assumes that
codes stop at 255. Integers are unbounded. Clocks, random draws, generated
identifiers, upstream answers and decoded JSON are arguments, so every theorem
holds for all of them.

## How it is organised

| file | what it holds |
|---|---|
| `window.dfy`, `limiters.dfy` | one specification over the whole admission history, and the four sliding-window limiters that refine it |
| `channels.dfy`, `candidates.dfy`, `shuffle.dfy`, `rotation.dfy`, `targets.dfy` | from the channel store to the ordered target list of one request |
| `rotationrace.dfy` | the key counters under any interleaving |
| `failover.dfy` | the three failover loops and the legacy proxy's recursion over keys |
| `breaker.dfy`, `breakerrace.dfy` | the channel breaker, alone against its history and under any interleaving |
| `framing.dfy`, `chunks.dfy`, `anthropic.dfy`, `gemini.dfy`, `livetail.dfy`, `relaywriters.dfy` | incremental line framing, the two stream translators, the log tail, the relay's writer stack |
| `accounts.dfy`, `quota.dfy` | users and tokens; charging with requests in flight |
| `ledger.dfy`, `reconciliation.dfy`, `turns.dfy` | every way a balance changes, as interleaved handlers; what reconciles; who is at work on what |
| `payments.dfy`, `checkins.dfy`, `newcomers.dfy`, `overdraft.dfy` | what overlapping handlers credit twice and waiting ones do not, and how far transfers overdraw |
| `desk.dfy`, `billing.dfy` | the same handlers over the stored records, each beside the history that accounts for every name's money; the billing page |
| `resp.dfy`, `invoice.dfy`, `routes.dfy`, `modelsync.dfy` | RESP frames, the PDF invoice, the route cache, the model-list merge |
| `bytes.dfy`, `sequences.dfy`, `sums.dfy` | strings, sequences, totals |

Where a handler is concurrent, two forms stand side by side: a state machine
whose steps are the locked calls (`quota.dfy`, `ledger.dfy`, `breakerrace.dfy`,
`rotationrace.dfy`),
and methods over the global records (`accounts.dfy`, `desk.dfy`, `breaker.dfy`)
that do what the machine does when nobody else runs.

## What the code does that its comments do not say

- The comment on `UserQuotaAllowed` says that an unknown user is refused; the
  code lets an unknown user, and the empty name, through
  (model/user.go:345-365). The model follows the code.
- A request is relayed whatever the status of its token, which is asked only
  when the token is charged; then the owner is charged even if the token refuses
  (handler/relay.go:312-331, model/token.go:234-254, `Quota.RequestAlone`).
- A transport error is remembered for the rest of the relay's and the Anthropic
  loop: a later success is marked as a failure and answered with 502. When all
  targets fail without one, the relay calls `WriteHeader` with 0, the Anthropic
  handler with 502 (handler/relay.go:542-569, handler/feat_anthropic.go:126-160).
  `Failover.LoopsAgree` says exactly when the loops agree with the Gemini one.
- Six failures can disable a channel twice (`BreakerRace.SixFailuresTwoTrips`).
  Calls that wait for each other disable it once in five
  (`BreakerRace.SerialTripsOnce`), and the count that holds in every
  interleaving is `BreakerRace.TripsAreCharged`.
- The relay's channels and the legacy proxy's routes share one counter map by
  number (handler/relay.go:757, handler/proxy.go:149), so a route that takes
  turns skips keys of the channel (`Rotation.TurnsAreShared`). The first two
  relay builds of a channel both start at its first key; that is the only unfair
  stretch of requests (`Rotation.RotationIsFair`). Builds that miss the counter
  together each store their own, and turns start over
  (`RotationRace.CountersAreBounded`, `RotationRace.CountersAreReached`).
- Two overlapping payment callbacks credit an order twice
  (`Payments.PaidTwice`); waiting for each other they never do
  (`Payments.PaidOnce`).
- Two overlapping check-ins are granted the same day twice
  (`CheckIns.TwiceADay`). Waiting is not enough: only the last day is stored, so
  a day that comes back after another is granted again, by one goroutine alone
  (`CheckIns.SetBackTwice`). Waiting check-ins whose days do not go back are
  granted each day once (`CheckIns.OnceADay`).
- Two overlapping registrations can share the last use of an invitation
  (`Newcomers.BothWelcome`) and can both become root, unmetered
  (`Newcomers.TwoRoots`); waiting for each other they do neither
  (`Newcomers.UsedWithinCount`, `Newcomers.OneRoot`).
- Overlapping transfers overdraw their sender, k of them by at most k - 1
  amounts, and some by just that; what the relay charges and negative credits
  take in between comes on top
  (`Overdraft.OverdraftIsBounded`, `Overdraft.OverdraftIsReached`).
- Credits to a name nobody has are billed all the same
  (`Reconciliation.AdjustReconciles`); transfers and refunds look first.
- The billing page reads the newest five hundred bills of all users, so older
  ones are missing from a user's own total (`Billing.PageReconciles`).
- Merging models into a wildcard list stops it from being one, unless the
  upstream reports no model; `ModelSync.MergeExtends` gives the exact condition.
- The Gemini writer also decodes lines without the `data:` prefix
  (`Gemini.SameTextAsAnthropic`).
- The Anthropic writer sends `message_delta` and `message_stop` before any
  `message_start` exactly when `[DONE]` comes before the first payload that can
  be decoded (`Anthropic.StopBeforeStart`). It never sends a
  `content_block_stop`; that is a clause of `Anthropic.EventProtocol`.
- The upstream's model name reaches the client exactly when a write ends inside
  an occurrence that the whole stream would have replaced
  (`RelayWriters.WholeUnlessStraddled`), and the rewriting writer reports the
  number of rewritten bytes, not of those it was given
  (`RelayWriters.CountsTheWrite`).
- A log that is cut off and grows past the old offset between two ticks is read
  on from there; the lines before it are lost exactly when there are any
  (`LiveTail.RegrownIsReread`, `LiveTail.SkipsHead`).
- A carriage return in an invoice text reads back as a newline
  (`Invoice.EscapeRoundTrip`, `Invoice.PageReadsBack`).

## Model

| member | source | states |
|---|---|---|
| Window.NoMinuteOverflows | handler/relay.go:73-125 | under a fixed limit and a clock that does not run backwards, no sixty-second window, wherever it starts, holds more admitted weight than the limit |
| Window.AdmitsExactlyWhatFits | handler/relay.go:98-125 | while no window overflows, an attempt is admitted if and only if recording it makes none overflow |
| Window.AdmitsMeans | handler/relay.go:98-125 | an attempt is admitted iff its weight and that of every recorded hit less than sixty seconds old stay within the limit |
| Window.RunMeans | handler/relay.go:98-125 | over a run each admitted attempt is recorded with its time and whole cost, and nothing else is |
| Limiters.RequestWindows.Allow | handler/relay.go:73-95 | trimming the expired prefix decides as the specification over the full history does, records exactly the admissions, and leaves other keys alone; a limit of 0 or an empty key always passes |
| Limiters.Trim | handler/relay.go:164-186 | since the buffer stays sorted, dropping the prefix is filtering |
| Limiters.CompactHits | handler/relay.go:98-125 | compacting into the slice's own array keeps exactly the live entries in order, with their sum |
| Limiters.TokenWindows.Allow | handler/relay.go:98-125 | the tokens-a-minute decision over the aliased slice is the specification's, with weights |
| Limiters.CompactTimes | handler/feat_guard.go:128-146 | the same in-place compaction over bare times |
| Limiters.AddressWindows.Allow | handler/feat_guard.go:128-146 | the per-address decision is the specification's over the full history |
| Limiters.AddressWindows.Sweep | handler/feat_guard.go:148-172 | a janitor tick forgets exactly the addresses with nothing live and changes no history, so no later decision |
| Limiters.TrimmedAgrees | handler/relay.go:73-95 | what is left of a trimmed window decides like the whole history, and may be stored with or without the new hit |
| Channels.KeyList | model/channel.go:234-246 | the trimmed non-blank names between commas |
| Channels.KeysBetweenCommas | model/channel.go:234-246 | a list in two parts joined by a comma has the keys of both; a part without commas has one key, trimmed, unless it is blank |
| Channels.SupportsModel | model/channel.go:249-259 | an empty list or a star supports everything, otherwise some trimmed item equals the model |
| Channels.Store.constructor | model/channel.go:48-66 | numbers handed out later are above every stored id |
| Channels.Store.GetAll | model/channel.go:132-142 | the enabled channels in store order |
| Channels.EnabledUnique | model/channel.go:132-142 | the enabled channels have distinct ids when the stored ones do |
| Channels.Store.Insert | model/channel.go:183-199 | a new channel gets an unused id, and weight 1 unless its own is positive; ids stay distinct |
| Channels.Store.Update | model/channel.go:202-218 | replaces the channel under its own id, with weight 1 unless its own is positive, or finds none and changes nothing; ids stay distinct |
| Channels.Store.Delete | model/channel.go:221-231 | removes exactly the channel with that id; ids stay distinct |
| Candidacy.SliceStable | handler/relay.go:734-735 | the sorted list descends by priority and keeps the order of equal priorities |
| Candidacy.LeadOfSorted | handler/relay.go:734-744 | the leading run of the sorted list is the stable filter on the maximal priority |
| Candidacy.TakeLead | handler/relay.go:736-744 | the run taken in place from the front is the leading run |
| Candidacy.Filter | handler/relay.go:716-732 | exactly the usable channels of the group that support the model, in store order |
| Candidacy.ChooseTop | handler/relay.go:734-744 | sort, then take the leading run: the candidates of maximal priority, in store order |
| Candidacy.TopIs | handler/relay.go:716-744 | a stored channel is chosen iff it has status 1, is not blocked, is of the group, has an empty list, a star or the model in it (or no model is asked for), and no such channel has a higher priority |
| Candidacy.TopPicked | handler/relay.go:716-744 | the chosen channels stand in store order |
| Shuffle.EachShareIsItsWeight | handler/relay.go:771-800 | of the draws below the total of the weights, exactly as many select a channel as its weight field says, one if that is not positive |
| Shuffle.FirstOut | handler/relay.go:771-800 | the first channel out is the one in whose part of the running sums of the weight fields the draw falls, and the rest is shuffled without it |
| Shuffle.Draw | handler/relay.go:785-795 | the walk over running totals stops at the one channel the draw selects |
| Shuffle.WeightedShuffle | handler/relay.go:771-800 | the loop without replacement terminates and returns the order its draws stand for |
| Shuffle.ShuffledIsPermutation | handler/relay.go:771-800 | every list of draws gives a permutation of the channels |
| Shuffle.DrawListsAre | handler/relay.go:771-800 | the finite set of draw lists holds exactly those with one draw a round, each below that round's total |
| Shuffle.OrdersByWeight | handler/relay.go:771-800 | for distinct channels, of the draw lists whose every draw is below the weight not yet drawn exactly the product of the weight fields many give any one order |
| Rotation.KeyCounters.NextForChannel | handler/relay.go:755-762 | hands out the count the map held, 0 without one; the first build stores 0, a later one counts itself |
| Rotation.KeyCounters.NextForRoute | handler/proxy.go:144-152 | the proxy counts every request of a route with more than one key, the first one too, in the same map |
| Rotation.RotationIsFair | handler/relay.go:755-765 | any n consecutive requests for a number start once at each of n positions, if and only if they are not the first ones, or the proxy asks first, or n is 1 |
| Rotation.TurnsAreShared | handler/relay.go:755-765 | whoever asks in between, two later requests start at the same of n keys if and only if n divides the number of turns between them |
| RotationRace.TurnsOnACounter | handler/relay.go:755-762 | in every interleaving each position up to a counter's count is taken once, the first once more if a build made the counter, and no other turn is taken; a counter serves only its own number |
| RotationRace.BuildAlone | handler/relay.go:755-762 | a build that nothing interrupts takes the turn and leaves the count that the sequential call does |
| RotationRace.RequestAlone | handler/proxy.go:144-152 | so does a request of the proxy |
| RotationRace.CountersAreBounded | handler/relay.go:755-762 | a number gets at most as many counters as builds stand at once between missing it and storing theirs, and one more if the proxy asks for it |
| RotationRace.CountersAreReached | handler/relay.go:755-762 | for every k some run of k builds makes k counters, and all of them start at the first key |
| Targets.BuildTargets | handler/relay.go:716-768 | for every chosen channel with n keys and count idx (0 without one) the list holds n targets, the j-th with key (idx + j) mod n, or one target without a key; channels follow the shuffle; exactly the counts of chosen channels with keys advance |
| Targets.TryOrder | handler/relay.go:760-765 | a block is the key list rotated by the counter |
| Targets.TargetsAreExact | handler/relay.go:716-768 | as a multiset, each chosen channel occurs once with each position of its key list (or once without a key) and nothing else occurs |
| Targets.BlocksContiguous | handler/relay.go:748-766 | with distinct ids the targets of one channel stand together |
| Targets.Prefer | handler/relay.go:469-488 | the affinity reorder is the stable partition by the affine channel, also where the code skips it because that channel is in front |
| Targets.RelayTargets | handler/relay.go:469-488 | built and reordered: each channel's keys still in turn, the affine channel in front and the others in the shuffled order, exactly the chosen channels' keys |
| Targets.CandidatesOfEnabled | handler/relay.go:716-732 | the candidates among the enabled channels are those among all |
| Targets.TargetsFromStore | handler/relay.go:469-488 | from any valid store the same; every target's channel is stored, of status 1, not blocked, of the group, and offers the model |
| Targets.BuildInTurn | handler/relay.go:748-768 | over any sequence of builds from an empty map, each with its own group, model, blocked channels and draws: a build starts a channel it chooses at the key as many positions on as builds chose it before, the first build apart |
| Targets.EachKeyFirstOnce | handler/relay.go:748-768 | so over as many builds as a channel has keys, consecutive ones among those that choose it and not the very first, each of its keys is tried first once, in list order |
| Failover.GeminiLoop | handler/feat_gemini.go:154-193 | a tried target is marked a success iff it raised no transport error and its status is below 500 and not 401, 403 or 429, otherwise a failure; the first success ends the loop and is relayed; 502 without one; a broken conversion ends the loop |
| Failover.RelayLoop | handler/relay.go:542-579 | the same in status codes, but a transport error counts against every later target too and makes the answer 502; status 0 when nothing answered |
| Failover.AnthropicLoop | handler/feat_anthropic.go:126-160 | as the relay's loop, with 502 when nothing answered |
| Failover.LoopsAgree | handler/feat_gemini.go:154-193 | in status codes: the Gemini loop answers 502 iff no target is good; the sticky loops give the same marks iff no transport error comes before the first good one, and the same answer iff moreover there is a good one or a transport error |
| Failover.ProxyRun.Serve | handler/proxy.go:164-185 | each recursion tries the next key in cyclic order while one is left |
| Failover.ProxyRun.Run | handler/proxy.go:144-185 | attempt j uses the key j positions on from the first, cyclically, no position twice; 502 is answered iff every attempt fails |
| Breaker.ChannelHealth.MarkFailure | handler/relay.go:208-218 | the channel trips exactly on every fifth failure in a row since its last success or trip |
| Breaker.ChannelHealth.MarkSuccess | handler/relay.go:202-205 | forgets the failures and the disable time |
| Breaker.ChannelHealth.Usable | handler/relay.go:189-199 | a channel is usable iff its status is 1 and no fifth failure in a row less than sixty seconds old stands without a later success; the counter stays in 0..4 |
| BreakerRace.TripsAreCharged | handler/relay.go:208-218 | in every interleaving each disabling is charged to a counter of its channel with at least five increments, and a counter with n increments accounts for exactly n - 4 |
| BreakerRace.NoIncrementLost | handler/relay.go:208-218 | whatever is replaced meanwhile, the counters add up to the increments made |
| BreakerRace.ReplacedForGood | handler/relay.go:202-218 | a replaced counter is never a channel's counter again |
| BreakerRace.FailureAlone | handler/relay.go:208-218 | uninterrupted, the steps of a failure are the sequential breaker's |
| BreakerRace.SuccessAlone | handler/relay.go:202-205 | uninterrupted, the steps of a success are the sequential breaker's |
| BreakerRace.SixFailuresTwoTrips | handler/relay.go:208-218 | from every state with four failures counted, two overlapping failures disable the channel twice |
| BreakerRace.SerialTripsOnce | handler/relay.go:189-218 | when calls for a channel wait for each other, no counter passes five, and one disabling is made or due for it exactly when it has reached five |
| Framing.Reassemble | handler/feat_anthropic.go:308-330 | complete lines and rest put together are the stream, and contain no stray newline |
| Framing.OnlySplit | handler/feat_gemini.go:461-485 | there is only one way to cut a stream into lines and rest |
| Framing.LinesAppend | handler/feat_gemini.go:461-485 | framing the second piece behind what the first left over is framing the whole |
| Anthropic.StreamWriter.Write | handler/feat_anthropic.go:265-271 | after an error status bytes pass through, otherwise the complete lines are translated and the rest is kept |
| Anthropic.StreamWriter.WriteError | handler/feat_anthropic.go:294-302 | a transport failure becomes one error event, unless bytes pass through |
| Anthropic.StreamWriter.Process | handler/feat_anthropic.go:308-330 | the loop over the buffer hands on exactly its complete lines, in order |
| Anthropic.StreamWriter.HandleChunk | handler/feat_anthropic.go:332-395 | one payload: ids and positive counts noted, the message started, the block started before the first text, the text sent |
| Anthropic.StreamWriter.HandleDone | handler/feat_anthropic.go:397-408 | the end of the stream sends the reported or estimated count and stops |
| Anthropic.LineSends | handler/feat_anthropic.go:308-408 | over any lines, what each sends: `[DONE]` the two events of the stop, a payload that decodes the start if there was none and its text, if any, in the one block, and any other line nothing |
| Anthropic.StartCarries | handler/feat_anthropic.go:332-371 | over any cuts and failures, the message started carries the id of the first payload that decodes, and its positive prompt count or else the estimate |
| Anthropic.ChunkInvariance | handler/feat_anthropic.go:308-330 | however the stream is cut into writes, events and state are those of one write |
| Anthropic.EventProtocol | handler/feat_anthropic.go:294-408 | over every run: message_start once and before any block, the block once and before every delta and never stopped, message_delta and message_stop only as a pair, and the deltas are exactly the upstream text |
| Anthropic.StopBeforeStart | handler/feat_anthropic.go:308-408 | over every run: some message_delta is sent before any message_start, if and only if a `[DONE]` line comes before every line with a payload that decodes |
| Anthropic.EmptyStreamStopsEarly | handler/feat_anthropic.go:308-408 | a stream that is just its `[DONE]` line stops without having started |
| Anthropic.FailuresAreTold | handler/feat_anthropic.go:294-302 | every transport failure is sent as one error event with its message, in order, and nothing else is one |
| Anthropic.PassesThrough | handler/feat_anthropic.go:249-271 | after an error status the client gets the upstream's bytes as they are and no event |
| Anthropic.Delivers | handler/feat_anthropic.go:332-395 | whatever the cuts, the text sent is the text of the upstream's data lines |
| Anthropic.UsageOutIsLastReported | handler/feat_anthropic.go:332-395 | the completion count kept is that of the last line that reports a positive one, 0 without any |
| Anthropic.DoneReports | handler/feat_anthropic.go:397-408 | the stop after a line `[DONE]` carries that count, or else a quarter of the text sent, at least one |
| Gemini.StreamWriter.Write | handler/feat_gemini.go:461-485 | pending bytes and new ones: complete lines handled, the rest kept, all bytes counted, errors passed through |
| Gemini.StreamWriter.HandleLine | handler/feat_gemini.go:493-538 | one line: the prefix dropped if there, the event sent with its counts at the stop |
| Gemini.ChunkInvariance | handler/feat_gemini.go:461-485 | however the stream is cut, events and state are those of one write |
| Gemini.StreamKeepsText | handler/feat_gemini.go:493-538 | the delivered text is the upstream text and textLen its length |
| Gemini.LineSends | handler/feat_gemini.go:493-538 | over any lines, what each sends: nothing, or one event with its chunk's text, with counts exactly at a finish of "stop" |
| Gemini.CountsBytes | handler/feat_gemini.go:461-485 | every byte is counted; after a status from 400 on all of them go out as they are |
| Gemini.StopReports | handler/feat_gemini.go:493-538 | over any lines: a line adds an event with counts exactly when it stops, and these are the chunk's own positive counts, or else the prompt estimate and a quarter, at least one, of the text delivered so far, with their sum |
| Gemini.SameTextAsAnthropic | handler/feat_gemini.go:493-538 | given one chunk decoder the two writers deliver the same text iff no line without the data: prefix decodes to text |
| LiveTail.Tail.Take | handler/feat_live.go:113-127 | one read sends the complete non-blank lines and keeps the unfinished one |
| LiveTail.Tail.Tick | handler/feat_live.go:79-127 | a tick reads all there is from the offset, starts over when the file is missing or shorter, or cannot be sought in, and skips one it cannot open or look at |
| LiveTail.EveryLineOnce | handler/feat_live.go:84-127 | while the log only grows, every complete line is sent exactly once, in order, whenever the ticks fall |
| LiveTail.BadTicks | handler/feat_live.go:79-101 | after a missing file, or one that cannot be sought in, the next one is sent from its first line; one that cannot be opened costs nothing |
| LiveTail.ShorterIsReread | handler/feat_live.go:92-101 | a file shorter than the offset is sent from its first line |
| LiveTail.RegrownIsReread | handler/feat_live.go:92-101 | a log cut off and grown past the offset is sent as if read from its start, however it goes on, if and only if what the offset skips has no complete non-blank line and ends in what was left over |
| LiveTail.SkipsHead | handler/feat_live.go:92-101 | otherwise exactly the complete lines of the skipped part are lost, when what is left over still fits |
| RelayWriters.CountWriter.Write | handler/forward.go:80-88 | counts exactly the bytes the client took, also of a write it took in part |
| RelayWriters.TailWriter.Write | handler/relay.go:853-865 | keeps exactly the last max bytes of all it has seen |
| RelayWriters.RewriteWriter.Write | handler/relay.go:924-929 | replaces within this write, passes the result on and returns what the client took of it |
| RelayWriters.CountsTheWrite | handler/relay.go:924-929 | the rewritten write is as long as the given one if and only if the names are equally long or the upstream name does not occur |
| RelayWriters.Stream | handler/relay.go:494-508 | over any stream: what the client took, the last 65536 bytes of all that was written in the tail, the client's bytes in the counter |
| RelayWriters.UnstraddledIsWhole | handler/relay.go:924-947 | if no replaced occurrence of the whole stream crosses a cut between two writes, the client gets the leftmost non-overlapping replacement of the whole stream |
| RelayWriters.WholeUnlessStraddled | handler/relay.go:924-947 | for names without quotes: if and only if |
| RelayWriters.QuotedNameGoesUnnoticed | handler/relay.go:924-947 | with quotes in the upstream name an occurrence may be cut without any difference |
| RelayWriters.PiecewiseIsWhole | handler/relay.go:924-947 | so it does when every write ends a line and the upstream name has no newline |
| Accounts.Users.AddUserQuota | model/user.go:333-343 | adds to the first user of that name, -1 being a number like any other; nobody else changes |
| Accounts.Users.AddUserUsed | model/user.go:368-381 | charges the first user of that name; the empty name is never charged |
| Accounts.Users.UserQuotaAllowed | model/user.go:347-365 | refuses iff some user has that non-empty name and the first one is not of status 1, or has a quota from 0 on and has used it up |
| Accounts.Users.CreateUser | model/user.go:232-245 | refuses a taken name, otherwise appends an enabled user with nothing used |
| Accounts.Tokens.GetToken | model/token.go:202-212 | a copy of the first token with the key |
| Accounts.Tokens.UseToken | model/token.go:234-254 | invalid iff the first token of the key is missing or not of status 1, exceeded iff it is limited and has used up a quota from 0 on, otherwise exactly that token is charged |
| Quota.LookAdmits | handler/relay.go:312-326 | a request passes the first look iff the first token of its key is there, not expired, and unlimited, unmetered or below its quota |
| Quota.AdmitAdmits | handler/relay.go:327-331 | it passes the second iff its owner is nameless or unknown, or of status 1 and unmetered or below the quota |
| Quota.DisabledNeverAdmitted | handler/relay.go:327-331 | over every run from a quiet state, no request of a user whose status is not 1 is ever sent on, and that user is never charged |
| Quota.RequestAlone | handler/relay.go:581-584 | an admitted request that nothing interrupts charges its cost to its token, unless that is not of status 1, and to the token's owner in any case |
| Quota.ComesToRest | handler/relay.go:312-331 | from every state every request can end without another charge to a token |
| Quota.OvershootIsBounded | handler/relay.go:312-331 | with at most k requests in flight of cost at most C, every reachable state keeps used + C * in-flight within Q - 1 + k * C (or what was used before) |
| Quota.OvershootIsReached | handler/relay.go:581-584 | for every quota, cost and k some run ends exactly at the bound |
| Quota.TokenOvershootsOnce | model/token.go:234-254 | a metered token never exceeds Q - 1 + C, however many requests are in flight |
| Quota.UserCoversTokens | handler/relay.go:581-584 | a user is charged exactly what the user's tokens are charged plus what they refused; the tokens' total never overtakes the user's beyond what is still due |
| Ledger.CallConserves | model/user.go:333-381 | one locked call changes the records by exactly what its script owed for it |
| Ledger.ScriptOwesNothing | handler/feat_plan.go:116-131 | the calls a handler makes before its first read bill exactly what they credit |
| Ledger.RunConserves | handler/feat_plan.go:185-207 | balance, usage, bills, redeemed codes, openings, lost credits and pending calls of a name stay in balance over any interleaving |
| Ledger.ReconcilesUnlessLost | handler/feat_billing.go:92-141 | when all is quiet, a reconciled name reconciles again iff no credit to it got lost |
| Reconciliation.KnownUsersReconcile | handler/scheduler.go:138-165 | any interleaving of credits, transfers, redemptions, payments, check-ins, registrations, grants and charges that name existing users, with orders and invitations of existing users stored, ends reconciled |
| Reconciliation.AdjustReconciles | handler/feat_billing.go:121-134 | adjusting a user keeps the books iff the user exists or the amount is 0 |
| Reconciliation.TransfersKeepTotal | handler/feat_plan.go:141-210 | any number of overlapping transfers leave the users' total of quota minus used unchanged |
| Reconciliation.EachCodeOnce | model/redemption.go:147-167 | no code is redeemed twice, those redeemed are exactly the unused ones that end up used, and a used code never changes again |
| Payments.PaidOnce | handler/feat_pay.go:89-110 | when the requests for one order wait for each other and its number is new, it is credited at most once, and at rest exactly when it is paid |
| Payments.PaidTwice | handler/feat_pay.go:197-232 | from every quiet state two overlapping callbacks can credit a pending order twice |
| CheckIns.OnceADay | handler/feat_presets.go:179-208 | when a user's check-ins wait for each other and none comes with a day before the stored one, no day is granted twice, whatever else runs |
| CheckIns.NoDayTwice | handler/feat_presets.go:179-208 | the same when each asks for the stored day or one never granted, in any order of days |
| CheckIns.SetBackTwice | handler/feat_presets.go:179-208 | from every quiet state one goroutine that serves a day, another day and the first day again, one after the other, grants the first twice |
| CheckIns.TwiceADay | handler/feat_presets.go:179-208 | from every quiet state two overlapping check-ins grant a new day twice |
| Newcomers.UsedWithinCount | model/feat_invite.go:58-71 | when registrations with one code wait for each other, it lets in at most the uses it has left, and its stored count grows by exactly those |
| Newcomers.BothWelcome | model/feat_invite.go:58-71 | from every quiet state with an open invitation, two overlapping registrations of new names are both credited while one use is saved |
| Newcomers.OneRoot | handler/auth.go:226-235 | when there are users no registration becomes root, whatever overlaps; when there are none and registrations wait for each other, exactly one account is root's once there is any |
| Newcomers.TwoRoots | handler/auth.go:226-235 | from every quiet state without users two overlapping registrations both become root with quota -1 |
| Overdraft.OverdraftIsBounded | handler/feat_plan.go:170-207 | with at most k transfers of a sender between look and debit, each of at most `most`, its balance plus what the relay charged it and credits below zero took from it meanwhile never fall below -(k - 1) * most, nor below its start if that is less, whatever other requests run |
| Overdraft.OverdraftIsReached | handler/feat_plan.go:170-207 | for every amount and k some run of transfers ends exactly there |
| Billing.LoadBillings | model/feat_billing.go:44-67 | at most five hundred bills, the j-th being the j-th newest |
| Billing.KeepMine | handler/feat_billing.go:63-71 | filtering into the slice's own array keeps exactly the viewer's entries in order |
| Billing.Collect | handler/feat_billing.go:44-71 | the newest bills, then the used codes, each with its time, then for anyone but root only the viewer's own |
| Billing.SortByTime | handler/feat_billing.go:74-76 | the latest time text first, entries of the same time in their old order, nothing added or lost |
| Billing.BillingPage | handler/feat_billing.go:44-76 | the collected entries, sorted so |
| Billing.PageShows | handler/feat_billing.go:44-76 | an entry is on the page iff it is the viewer's own, or the viewer is root, and it is one of the newest five hundred bills or a used code with its time |
| Billing.PageTotal | handler/feat_billing.go:44-76 | the page adds up, for the viewer and on root's page for anyone, to bills plus redeemed codes less the bills too old to be read |
| Billing.PageReconciles | handler/feat_billing.go:44-76 | the page itself reconciles iff the viewer's older bills cancel out |
| Desk.AloneIsARun | handler/feat_plan.go:185-207 | a handler run alone is a run of the interleaving machine in which only it acts |
| Desk.AfterKeeps | handler/feat_plan.go:185-207 | a request served alone leaves nobody working, and every name's money accounted for exactly when it was |
| Desk.OneDue | handler/scheduler.go:138-165 | a subscription is granted to once, with the quota of the first plan of its name, iff it can be read, names a plan that is there, and its date has not passed |
| Desk.AllDueAppend | handler/scheduler.go:138-165 | the grants of a day are those of the subscriptions one after the other |
| Desk.Records.ChargeUser | handler/relay.go:581-584 | the owner is charged, nobody else changes, and the books keep |
| Desk.Records.Transfer | handler/feat_plan.go:141-210 | succeeds iff the amount is positive, the recipient is another one who exists, and the sender exists, is not root and has the amount left; then it shifts the amount and bills both, and otherwise changes nothing; the books keep |
| Desk.Records.Refund | handler/feat_plan.go:218-254 | credits and bills an existing user and nobody else, refuses others; the books keep |
| Desk.Records.Adjust | handler/feat_billing.go:121-134 | credits without looking, bills always, reports the new quota or 0; the books keep up to the credit lost on a name nobody has |
| Desk.Records.Recharge | handler/feat_invoice.go:184-198 | bills and counts the non-blank trimmed names in order and credits each that somebody has, once for every mention, nothing else; the books keep up to lost credits |
| Desk.Records.SubDailyGrant | handler/scheduler.go:138-165 | bills and counts every stored subscription that can be read, has not expired and names a plan, credits those whose user is there, nothing else; the books keep up to lost credits |
| Desk.Records.Checkin | handler/feat_presets.go:184-208 | credits, bills and marks the day unless it is the stored one; the books keep |
| Desk.Records.RedeemInvite | model/feat_invite.go:58-71 | an invitation that is not used up counts one use more; others are refused and stay |
| Desk.RegisteredIs | handler/auth.go:226-272 | the newcomer is root with quota -1 iff nobody was there; an open invitation counts one use more and adds its quota, and its positive tenth for the inviter, each with its bill; no other balance changes |
| Desk.Records.Register | handler/auth.go:226-272 | goes through iff the name is not taken and the invitation, if one is given, has a use left; does what `Desk.RegisteredIs` says; a bad invitation fails the request after the account is open; the books keep |
| Desk.Records.CreateRedemptions | model/redemption.go:109-135 | appends one to a hundred unused codes of a positive quota, or nothing |
| Desk.Records.Redeem | model/redemption.go:147-167 | the first code of that name is used up by the user and credited iff its status was 1; the books keep |
| Desk.Records.CreditPaidOrder | handler/feat_pay.go:89-110 | a paid order is credited, billed and flagged unless its flag is set; the user gains the amount once |
| Desk.Records.CreateOrder | handler/feat_pay.go:148-195 | stores a positive order, by default at the mock gateway, where the automatic setting pays it at once, and credits, bills and flags it when paid; the books keep |
| Desk.Records.PayCallback | handler/feat_pay.go:197-232 | refuses empty parts, other gateways and unknown orders; a pending order becomes paid and is credited, billed and flagged unless its flag is set; the books keep |
| Resp.Encode | redisc/redisc.go:94-105 | writes a bulk string frame for every argument behind the count |
| Resp.Reader.ReadReply | redisc/redisc.go:107-154 | reads by the first byte, with the errors of short, malformed and unknown replies |
| Resp.LineRead | redisc/redisc.go:107-154 | a line behind each kind reads as a reply, an error reply, a bad number, the nil reply or a negative length |
| Resp.FrameRoundTrip | redisc/redisc.go:131-151 | every byte string, also with CRLF inside, is read back as itself, leaving the reader at the next frame |
| Resp.CutFrameIsBroken | redisc/redisc.go:131-151 | whatever is cut off the end of a frame, the read fails as a broken connection |
| Resp.FramesRoundTrip | redisc/redisc.go:94-105 | a sequence of frames reads back as the same sequence |
| Resp.SimpleRoundTrip | redisc/redisc.go:107-130 | a simple string reads back as itself iff it holds no newline and ends in no carriage return |
| Invoice.PdfEscape | handler/feat_invoice.go:78-83 | three replacements in a row equal escaping in one pass |
| Invoice.EscapeRoundTrip | handler/feat_invoice.go:78-83 | an escaped text between parentheses is read back as it was, and reading stops at its end, iff it holds no carriage return |
| Invoice.InvoicePDFContent | handler/feat_invoice.go:85-100 | the page content with the five lines, each escaped |
| Invoice.PageReadsBack | handler/feat_invoice.go:85-100 | reading the page's content from its start gives back title, month, requests, cost and date in this order, if and only if none holds a carriage return |
| Invoice.EntryShape | handler/feat_invoice.go:127-129 | below 10^10 a table entry is 20 bytes and holds its offset in ten digits |
| Invoice.FileLayout | handler/feat_invoice.go:102-133 | for any list of objects: the end marker, the table startxref points at, and in it the offset at which each object stands |
| Invoice.BuildInvoicePDF | handler/feat_invoice.go:102-133 | a file below 10^10 bytes begins with its header and is readable from its end: the table and the trailer stand where startxref leads, every entry leads to its object, word for word, and /Length is the content's |
| Routes.Store.Insert | model/route.go:197-210 | a new route gets an unused id |
| Routes.Store.Update | model/route.go:213-226 | replaces the route under its own id, or finds none |
| Routes.Store.Delete | model/route.go:229-239 | removes exactly the route with that id |
| Routes.Store.GetAllEnabled | model/route.go:184-194 | the enabled routes in order |
| Routes.RouteCache.Refresh | cache/cache.go:14-28 | the cache holds, for every prefix, the last enabled route with it |
| Routes.CachesMeans | cache/cache.go:14-28 | a refreshed cache has a prefix iff an enabled route has it, and holds such a route |
| Routes.RouteCache.GetRoute | cache/cache.go:31-57 | in every iteration order the answer is the last route of the longest non-empty matching prefix, none iff none matches |
| Routes.AnswerIsUnique | cache/cache.go:31-57 | at most one enabled route answers a path |
| ModelSync.MergeChannelModels | handler/feat_sync.go:155-177 | old names without repeats, then the new ones, and how many those are |
| ModelSync.MergedNames | handler/feat_sync.go:155-177 | no name repeats, and the names are those mentioned before or fetched other than the star |
| ModelSync.MergedInOrder | handler/feat_sync.go:155-177 | the merged list is first the names mentioned before, then the new ones, each at the place of its first mention |
| ModelSync.MergeExtends | handler/feat_sync.go:155-177 | for ids without commas, exactly the fetched models are supported in addition, if and only if the list names a real model, or is a wildcard just when the upstream reports no model |
| ModelSync.MergeTwice | handler/feat_sync.go:155-177 | merging the same ids again adds nothing and returns the same list |

## Left out

- Decoding and encoding of JSON: the chunk decoder is an uninterpreted partial function, request and response bodies are byte strings.
- The HTTP plumbing, reverse proxies, sessions, CORS, OAuth, mail, WebSocket relaying and the static pages.
- The database: reads return what was written, and writes succeed.
- Limiters.RequestWindows.Allow: takes the clock readings in order, as the lock around each window does; a clock set back is not modelled.
- Int64 wrap-around and the conversion of the unsigned key counter to an index.
- Costs in floating point: a cost is any non-negative integer.
- Administrators overwriting, renaming or deleting users, tokens and their usage, which bypass the ledger by design.
- `CheckAndUse` of the legacy proxy, which charges tokens without charging their owner and so stands outside `Quota.UserCoversTokens`.
- The balance and remark of a bill; its time only as text, for the page's order.
- Ledger runs read the sender's role, existence and balance in one step; the recipient is read in a later one.
- RelayWriters.WholeUnlessStraddled: only for names without a double quote; with one the equivalence fails (`RelayWriters.QuotedNameGoesUnnoticed`) and only `RelayWriters.UnstraddledIsWhole` holds.
- RelayWriters.Stream: takes the writes that are made; whether the reverse proxy goes on after a count other than it gave is not part of this model.
- Making invitations: a run starts with any that are stored.
- Subscriptions are read in one step with the clock, in the order the store lists them.
- Anthropic.StartCarries: the id is the upstream's; the message id written from it (its lower-case letters and digits, at most twelve, or random ones) is not part of this model.
- LiveTail.Tail.Tick: the file does not grow while one tick reads it.
- Targets.Prefer: the affinity table's expiry is not modelled; the affine channel is an argument.
- Failover.ProxyRun.Run: the request body is the same on every attempt.
- Statistics, rankings, the access log, scheduled reports and their bounded task log, and the login failure map.
- Redirects by regular expression, whose result depends on map order and the library's engine.
