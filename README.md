# wikitok race and poll bookkeeping, in Dafny

wikitok is a feed of "Wikipedia race" cards. Each card names a start article
and a target article. Viewers predict how many clicks a browser agent will
need, voting on one of four buckets. Then the agent races from start to
target in a remote browser sandbox, and its progress streams back to the
feed as server-sent events.

This project models the bookkeeping around a race and proves what it
promises:

- **Poll ledger.** The server keeps one tally per card (`PollLedger`, a
  class over a map). The client counts the viewer's vote optimistically, at
  most once per card (`FeedStore`, `CardUpdates`).
- **Feed store.** The client store is a class holding the cards, the active
  index and the loading flag. Its actions are `fetchCards`, `vote`,
  `startRace` and the race's read loop (`FeedStore`). What a race does to
  the cards is stated as functions (`RaceReplay`). A card's phase only moves
  forward (prediction, then running, then result). Every failure ends in the
  same failed run.
- **Event stream.** The server frames each event as
  `data: <JSON>\n\n`. The client buffers the chunks it reads, splits the
  buffer on blank lines and parses each frame's first `data:` line
  (`EventStream`). The JSON of the four event shapes is modelled concretely
  and proved to round-trip (`RaceEvents`). However the stream is cut into
  chunks, the client decodes exactly the events the server wrote.
- **Run handler.** The server's race handler (`RaceRun`) covers output
  truncation and the `snapshot` → `snapshot -i` rewrite (`Sanitiser`). It
  also covers the two tools, `onStepFinish`, and the terminal
  `done(false)`/`error` rule with its cleanup. The handler is a class whose
  methods append to the response stream. It is proved to write exactly the
  event sequence `RunEvents`. The verdict the client folds from that
  sequence is whether some `report_step` succeeded.
- **Sandbox client.** The decisions the sandbox client makes on a parsed
  response (`SandboxPool`).
- **Start handler.** The start handler's slug, `encodeURIComponent`,
  article URL and `open` command, with the decoding round trip
  (`RaceStart`).
- **Card generator.** The rotation through 30 curated pairs, as a class
  holding the shared counter (`WikipediaPairs`).
- **Display helpers.** The poll widget's bucket for a step count and its
  click guard (`PollView`). The terminal's command rewrite and token classes
  (`AgentTerminal`).

**What the model takes as inputs.** The language model, the network, the
environment and the identifiers the program draws are parameters:

- the tool calls of each model step, and the sandbox's answer to each;
- whether `generateText` threw;
- the value of `FIRECRAWL_API_KEY`;
- each HTTP reply, or the message of the error it failed with;
- the chunks of the response body;
- card ids.

**Shared modules.** `Types` holds the shared datatypes of
`src/lib/types.ts`. `JsStrings` holds the JavaScript string operations the
code relies on (`trim`, `startsWith`, `split` on a character, `\s` and
`\w`). `Wrappers` holds `Option` and `Result`.

**Several terminal events.** The handler can send more than one terminal
event. Each successful `report_step` result sends its own `done(true)`, and
a throw after a success sends `done(true)` and then `error`
(`RaceRun.RepeatedDone`, `RaceRun.DoneThenError`). The client's verdict is
still `hasSuccess` (`RaceRun.RunVerdict`).

## Model

| member | source | states |
|---|---|---|
| Types.OptionFromLabel | src/lib/types.ts:25 | exactly the four labels "1-3", "4-6", "7-9", "10+" name a bucket, and each names its own |
| Types.Votes.Increment | src/app/api/poll/route.ts:22 | `votes[o]++` raises bucket `o` by one and leaves every other bucket as it was |
| Types.ZeroPoll | src/app/api/poll/route.ts:14-18 | a fresh tally for a card: its id, every bucket 0, total 0, no viewer vote |
| Types.AddVote | src/app/api/poll/route.ts:22-23 | one vote raises the bucket and the total by one, keeps the other buckets, the card and the viewer's vote, and keeps `total == sum of buckets` |
| PollLedger.Lookup | src/app/api/poll/route.ts:35-39 | the stored tally, or a zero tally for an unseen card |
| PollLedger.Record | src/app/api/poll/route.ts:12-23 | a POST creates the zero tally when missing, counts the vote on it, and leaves every other card's tally alone |
| PollLedger.LookupWellFormed | src/app/api/poll/route.ts:35-39 | under the ledger invariant every card reads as a tally of its own id that sums up and has no viewer vote |
| PollLedger.RecordKeepsInvariant | src/app/api/poll/route.ts:12-23 | a POST keeps every stored tally keyed by its id, summing up and without a viewer vote |
| PollLedger.RecordTimesCounts | src/app/api/poll/route.ts:22-23 | no deduplication: n equal POSTs raise the bucket and the total by exactly n and no other bucket |
| PollLedger.Ledger.constructor | src/app/api/poll/route.ts:4 | the store starts empty |
| PollLedger.Ledger.Post | src/app/api/poll/route.ts:6-26 | the store becomes `Record(old store, id, vote)` and the answer is the stored, consistent tally |
| PollLedger.Ledger.Get | src/app/api/poll/route.ts:28-42 | a missing or empty id is a 400 "card_id required"; otherwise the stored or zero tally, and the store is not changed |
| CardUpdates.LastN | src/store/feed-store.ts:188 | `slice(-n)` keeps the last n entries, or all of them when there are fewer |
| CardUpdates.LastNConcat | src/store/feed-store.ts:188 | capping after every append equals capping once at the end: the log holds the newest entries in arrival order |
| CardUpdates.Titles | src/store/feed-store.ts:211 | the selected link of every step, in step order |
| CardUpdates.RunOfWellFormed | src/store/feed-store.ts:207-213 | `total_steps == |steps|`, and `path_titles` is the start title followed by each step's selected link, so it has `total_steps + 1` entries |
| CardUpdates.NewCardState | src/store/feed-store.ts:37-46 | a fetched card starts in prediction with a zero poll for its id, no viewer vote, no run or session and an empty log |
| CardUpdates.Apply | src/store/feed-store.ts:107-113 | every card updater keeps the card itself and a capped log capped, and every updater but `SetRunning` never moves the phase back |
| CardUpdates.MapCard | src/store/feed-store.ts:107-113 | `cards.map` applies the updater to exactly the cards with the id and keeps the rest in place |
| CardUpdates.FindCard | src/store/feed-store.ts:57 | `find` returns the first card with the id, or none when no card has it |
| CardUpdates.MapCardAdvances | src/store/feed-store.ts:107-113 | updates other than `SetRunning` drop no card, change no card and move no phase back, and keep logs capped |
| CardUpdates.SetRunningAdvances | src/store/feed-store.ts:99-105 | moving a card in prediction to running moves the feed forward |
| CardUpdates.MapCardKeepsIds | src/store/feed-store.ts:107-113 | updates keep ids unique and `find` still returns the same card |
| FeedStore.NewCards | src/store/feed-store.ts:37-46 | the new card states are the fetched cards, in the server's order, each fresh |
| FeedStore.OnlyCard | src/store/feed-store.ts:57 | with unique ids `find` returns the only card with the id |
| FeedStore.VoteOptimistic | src/store/feed-store.ts:60-74 | the optimistic update raises the chosen bucket and the total by one, keeps the other buckets, records the viewer's vote and leaves other cards alone |
| FeedStore.VoteLocksCard | src/store/feed-store.ts:57-58 | after the optimistic update, and after the server's reply, a second `vote` on the card is refused |
| FeedStore.ReplyKeepsChoice | src/store/feed-store.ts:83-89 | the server's tally replaces the poll but the viewer's choice stays, and the phase is unchanged |
| FeedStore.RaceStartsOnce | src/store/feed-store.ts:96-105 | once started, a card never waits for predictions again, whatever the race does |
| FeedStore.Feed.constructor | src/store/feed-store.ts:24-27 | no cards, index 0, not loading |
| FeedStore.Feed.SetActiveIndex | src/store/feed-store.ts:29 | only the active index changes |
| FeedStore.Feed.FetchCards | src/store/feed-store.ts:31-33 | refused while a fetch is under way; otherwise marks one under way; cards unchanged |
| FeedStore.Feed.FetchCardsReply | src/store/feed-store.ts:34-53 | the fetched cards are appended after the existing ones, fresh; a failed fetch keeps the cards; loading is cleared either way |
| FeedStore.Feed.Vote | src/store/feed-store.ts:56-74 | the request is sent exactly when the card exists and has no viewer vote, and then the cards are the optimistic update; otherwise nothing changes |
| FeedStore.Feed.VoteReply | src/store/feed-store.ts:76-92 | a reply replaces the card's poll, keeping the choice; a failed request keeps the optimistic state |
| FeedStore.Feed.StartRace | src/store/feed-store.ts:95-105 | a race starts exactly when the card exists and is in prediction; its card is returned and only it moves to running |
| FeedStore.Feed.RunRace | src/store/feed-store.ts:117-250 | for the card `startRace` found in the store, the cards become `RaceOutcome` of the network's behaviour, the feed moves forward and the store invariant holds |
| FeedStore.Feed.ReadStream | src/store/feed-store.ts:159-228 | the read loop leaves the cards, the steps and `raceSuccess` as the replay of the events decoded from the chunks |
| FeedStore.Feed.HandleFrames | src/store/feed-store.ts:174-227 | handling complete frames in order is replaying their events |
| FeedStore.Feed.HandleFrame | src/store/feed-store.ts:175-226 | a frame with a parsable data line is dispatched; a frame without one is skipped |
| RaceReplay.ReplayFrame | src/store/feed-store.ts:174-227 | one more complete frame dispatches its event, if any, after the earlier ones |
| RaceReplay.VerdictSpec | src/store/feed-store.ts:201-219 | the folded verdict is true iff some event sets it and no later event clears it |
| RaceReplay.ReplaySteps | src/store/feed-store.ts:192-201 | the steps collected are exactly the steps the `step` events report, in order |
| RaceReplay.ReplayVerdict | src/store/feed-store.ts:202-219 | `raceSuccess` after the events is the verdict folded over them |
| RaceReplay.DispatchCards | src/store/feed-store.ts:180-215 | one event touches only the race's cards and never their place, card or phase |
| RaceReplay.ReplayCards | src/store/feed-store.ts:166-228 | the same for a whole sequence of events |
| RaceReplay.ReplayLog | src/store/feed-store.ts:180-190 | the card's log is the newest `ActionLogSize` (20) entries of the old log followed by the race's browser actions |
| RaceReplay.ReplayLogsCapped | src/store/feed-store.ts:186-189 | handling events keeps every log at 20 entries or fewer |
| RaceReplay.ReplaySession | src/store/feed-store.ts:135 | handling events never touches a card's session |
| RaceReplay.RaceOutcomeAdvances | src/store/feed-store.ts:117-250 | a race moves the feed forward, keeps logs capped and leaves the cards of other ids alone |
| RaceReplay.RaceFailure | src/store/feed-store.ts:242-249 | start failure, run failure and a thrown error all leave the card in result with the canonical failed run |
| RaceReplay.RaceFinished | src/store/feed-store.ts:230-241 | a stream read to its end leaves the card in result with its session, the reported steps, the path, the folded verdict and the newest actions |
| RaceReplay.RaceOfEncodedStream | src/store/feed-store.ts:166-241 | when the chunks are the server's frames for `es` plus an unterminated tail, the final run is the steps and verdict of `es` |
| EventStream.EncodeAppend | src/app/api/race/run/route.ts:41-42 | sending one more event appends its frame to what was written |
| EventStream.DataFieldOneLine | src/app/api/race/run/route.ts:42 | a frame body holds no line break |
| EventStream.JoinSplitFrames | src/store/feed-store.ts:171 | `split("\n\n")` loses nothing: joining the pieces gives the buffer back |
| EventStream.SplitTerminated | src/store/feed-store.ts:171 | newline-free frame bodies, each with its blank line, split into one piece per body, then the tail's pieces |
| EventStream.FirstData | src/store/feed-store.ts:175 | the first line starting `data:`, or none when no line does |
| EventStream.FrameEventOfField | src/store/feed-store.ts:175-178 | a frame the server wrote parses back to its event |
| EventStream.FrameEventsAppend | src/store/feed-store.ts:174-227 | the events of consecutive frame batches are concatenated |
| EventStream.ReadChunk | src/store/feed-store.ts:167-172 | after each read, the handled frames plus the buffer are the split of everything read so far |
| EventStream.ReadAll | src/store/feed-store.ts:166-168 | at the end the handled frames are the complete frames of the whole stream, whatever the chunking, and the unterminated tail is dropped |
| EventStream.DecodeEncode | src/store/feed-store.ts:166-178 | decoding any chunking of the server's frames plus a newline-free tail gives back exactly the events, in order |
| RaceEvents.EscapeChar | src/app/api/race/run/route.ts:42 | `JSON.stringify` writes every character of a string without a raw line break |
| RaceEvents.QuoteThenParse | src/store/feed-store.ts:178 | a JSON string literal reads back as its string, leaving the rest |
| RaceEvents.IntTextThenParse | src/store/feed-store.ts:178 | a JSON integer reads back as its value |
| RaceEvents.SerialiseShape | src/app/api/race/run/route.ts:42 | a serialised event is a braced object without line breaks |
| RaceEvents.StepRoundTrip | src/app/api/race/run/route.ts:81-82 | the step object reads back as the step sent |
| RaceEvents.BrowserRoundTrip | src/app/api/race/run/route.ts:64 | a browser event reads back, with or without its result |
| RaceEvents.HeadsDiffer | src/store/feed-store.ts:180-221 | no two event shapes start the same way |
| RaceEvents.RoundTrip | src/store/feed-store.ts:178 | `JSON.parse(JSON.stringify(e)) == e` for every event |
| RaceRun.TruncateOutput | src/app/api/race/run/route.ts:11-14 | identity up to 8000 characters; beyond, the first 8000 then the marker, of length 8000 + marker |
| RaceRun.TruncateIdempotent | src/app/api/race/run/route.ts:11-14 | truncating twice is truncating once |
| RaceRun.Preview | src/app/api/race/run/route.ts:64 | the preview is present iff the result is, and is its first 200 characters at most |
| RaceRun.BrowserOutput | src/app/api/race/run/route.ts:65-67 | an error alone when the sandbox reports one; otherwise the truncated result, or "(no output)" |
| RaceRun.ExecutedOutput | src/app/api/race/run/route.ts:63-67 | for an answer `executeBash` produced, the tool returns exactly one of a non-empty error or a non-empty, bounded result |
| RaceRun.ErrorMessage | src/app/api/race/run/route.ts:112 | a thrown `Error` gives its message, anything else "Race failed" |
| RaceRun.Dones | src/app/api/race/run/route.ts:88-97 | `onStepFinish` sends only `done(true)`, and sends some iff a `report_step` of the step succeeded |
| RaceRun.StepsLoopEvents | src/app/api/race/run/route.ts:61-97 | inside the loop only sanitised `browser` events, `step` events for this race's target and card, and `done(true)` are sent |
| RaceRun.RunTerminal | src/app/api/race/run/route.ts:100-114 | a throw sends one `error` event, last, and no `done(false)`; otherwise `done(false)` is sent, last, iff no `report_step` succeeded |
| RaceRun.RepeatedDone | src/app/api/race/run/route.ts:88-97 | a step with two successful `report_step` results sends `done(true)` twice |
| RaceRun.DoneThenError | src/app/api/race/run/route.ts:88-114 | a throw after a successful `report_step` sends `done(true)` and then `error` |
| RaceRun.VerdictCalls | src/app/api/race/run/route.ts:80-84 | the client's verdict over a step's tool events is set iff a `report_step` in it succeeded |
| RaceRun.VerdictDones | src/app/api/race/run/route.ts:88-97 | the `done(true)` events change the verdict exactly when some result succeeded |
| RaceRun.VerdictSteps | src/app/api/race/run/route.ts:100-107 | the verdict folded over the loop's events is `hasSuccess` |
| RaceRun.RunVerdict | src/app/api/race/run/route.ts:100-114 | the verdict folded over everything the handler writes is `hasSuccess`, thrown error or not |
| RaceRun.TerminalVerdict | src/app/api/race/run/route.ts:108-114 | the terminal event never changes a verdict equal to `hasSuccess` |
| RaceRun.ClientSeesRun | src/app/api/race/run/route.ts:41-42 | a client reading any chunking of the run's stream decodes exactly the events written and ends with the verdict `hasSuccess` |
| RaceRun.ResultsSuccess | src/app/api/race/run/route.ts:100-107 | `result.steps.some(...)` over the recorded results equals `hasSuccess` over the calls |
| RaceRun.RaceRunner.constructor | src/app/api/race/run/route.ts:37-39 | nothing written, the writer open, no session closed |
| RaceRun.RaceRunner.Send | src/app/api/race/run/route.ts:41-42 | appends `data: <JSON>\n\n` to the stream and changes nothing else |
| RaceRun.RaceRunner.BrowserTool | src/app/api/race/run/route.ts:61-69 | writes the sanitised command's `browser` event when the sandbox answered, none when it rejected, and returns the tool output |
| RaceRun.RaceRunner.ReportStep | src/app/api/race/run/route.ts:80-84 | writes one `step` event with the target and card and acknowledges `{ok: true, success}` |
| RaceRun.RaceRunner.RunStep | src/app/api/race/run/route.ts:50-86 | a step's tool calls write their events in call order and return their outcomes |
| RaceRun.RaceRunner.OnStepFinish | src/app/api/race/run/route.ts:88-97 | writes `done(true)` once per successful `report_step` result |
| RaceRun.RaceRunner.FinishedStep | src/app/api/race/run/route.ts:50-97 | one model step writes its tools' events, then `onStepFinish`'s |
| RaceRun.RaceRunner.RunSteps | src/app/api/race/run/route.ts:46-98 | the loop writes the events of every step in order, and the results are each step's outcomes |
| RaceRun.RaceRunner.Run | src/app/api/race/run/route.ts:44-119 | writes exactly `RunEvents`, then asks to close the session once and closes the writer, on every path |
| Sanitiser.Sanitise | src/app/api/race/run/route.ts:62 | the rewrite inserts " -i" after exactly the whole-word, unflagged `snapshot`s and changes nothing else; the length grows by 3 per insertion |
| Sanitiser.ScanIsInsert | src/app/api/race/run/route.ts:62 | the left-to-right global replace inserts exactly where the reference marks say |
| Sanitiser.SanitiseIdempotent | src/app/api/race/run/route.ts:62 | sanitising a sanitised command changes nothing |
| Sanitiser.NoNewMatch | src/app/api/race/run/route.ts:62 | where the scan does not match, its output does not match either |
| SandboxPool.GetApiKey | src/lib/sandbox-pool.ts:3-7 | the key iff it is set and non-empty, otherwise "FIRECRAWL_API_KEY not set" |
| SandboxPool.CreateBrowserSession | src/lib/sandbox-pool.ts:14-29 | a session iff the key is set, the request succeeded, `success` holds and the id is non-empty; the live view URL defaults to ""; each failure carries its message |
| SandboxPool.RawOutput | src/lib/sandbox-pool.ts:46 | `stdout`, else `result`, else "", taking the first non-empty |
| SandboxPool.Normalise | src/lib/sandbox-pool.ts:44-48 | the reported error wins, then "Execution failed"; otherwise the result is the trimmed `stdout || result`, or "(no output)" exactly when that is empty; exactly one of result and error |
| SandboxPool.ExecuteBash | src/lib/sandbox-pool.ts:31-49 | a missing key or failed request rejects with its message; otherwise the normalised answer |
| SandboxPool.CloseBrowserSession | src/lib/sandbox-pool.ts:51-60 | rejects iff the key is missing; a failed request is swallowed |
| SandboxPool.CloseIgnoresReply | src/lib/sandbox-pool.ts:51-60 | the result does not depend on how the request went |
| RaceStart.Slug | src/app/api/race/start/route.ts:13 | same length, every space an underscore, every other character kept |
| RaceStart.EncodeURIComponent | src/app/api/race/start/route.ts:14 | the output is only unreserved characters and upper-case `%HH` triples |
| RaceStart.EncodedIsOneSegment | src/app/api/race/start/route.ts:14 | encoded text holds no `/`, `?`, `#`, space or `"` |
| RaceStart.Utf8Decodes | src/app/api/race/start/route.ts:14 | the UTF-8 bytes of a character are a well-formed sequence that decodes back to it |
| RaceStart.DecodeEncode | src/app/api/race/start/route.ts:14 | `decodeURIComponent(encodeURIComponent(s)) == s` |
| RaceStart.ArticleUrlIsOneSegment | src/app/api/race/start/route.ts:14 | the URL is the wiki base followed by one segment that decodes to the slug, with no `"` |
| RaceStart.OpenQuoted | src/app/api/race/start/route.ts:16 | quoting a URL without `"` makes the argument exactly the URL |
| RaceStart.OpenArgumentIsUrl | src/app/api/race/start/route.ts:16 | the `open` command's quoted argument is exactly the article URL and cannot close early |
| RaceStart.HandleStart | src/app/api/race/start/route.ts:8-27 | the open command is sent iff the session was created; success returns the session's id and URL; every failure is a 500 with the message of the session error or of the rejected open command |
| RaceStart.OpenResultIgnored | src/app/api/race/start/route.ts:16 | the sandbox's answer to the open command does not change the response |
| AgentTerminal.ToFirecrawlCommand | src/components/AgentTerminal.tsx:11-13 | unchanged without the prefix; otherwise "firecrawl browser " then the command after the prefix and all following whitespace, kept verbatim |
| AgentTerminal.RewriteIdempotent | src/components/AgentTerminal.tsx:11-13 | a rewritten command is shown as it is |
| AgentTerminal.RewriteWithoutSpace | src/components/AgentTerminal.tsx:12 | `agent-browserX` shows as `firecrawl browser X` |
| AgentTerminal.Classify | src/components/AgentTerminal.tsx:21-36 | each class iff its test passes and no earlier test did: `@`, `firecrawl`, `browser`, verb, `-i`, else plain |
| AgentTerminal.FormatCommand | src/components/AgentTerminal.tsx:15-40 | one token per space-separated part of the shown command, with its class |
| AgentTerminal.FormatKeepsText | src/components/AgentTerminal.tsx:17 | the tokens joined by spaces spell the shown command |
| AgentTerminal.RewrittenHead | src/components/AgentTerminal.tsx:16-28 | a rewritten agent command shows `firecrawl` then `browser` as its first two tokens |
| PollView.BucketIndex | src/components/Poll.tsx:6-11 | a bucket's position in the widget's list |
| PollView.OptionsListEachBucketOnce | src/components/Poll.tsx:6-11 | the widget lists every bucket exactly once |
| PollView.GetCorrectBucket | src/components/Poll.tsx:21-26 | "1-3" iff at most 3 steps, "4-6" iff 4..6, "7-9" iff 7..9, "10+" iff 10 or more |
| PollView.BucketMatchesLabel | src/components/Poll.tsx:21-26 | a race of at least one step lands in the bucket whose label names its count |
| PollView.BucketMonotone | src/components/Poll.tsx:21-26 | more steps never give an earlier bucket |
| PollView.FailedRunBucket | src/components/Poll.tsx:22 | the failed run's 0 steps count as "1-3" |
| PollView.Click | src/components/Poll.tsx:44 | a click votes, for its own bucket, iff the viewer has not voted and results are hidden |
| PollView.NoClickAfterVote | src/components/Poll.tsx:29 | once the store counted a vote, no click on the card votes again |
| WikipediaPairs.CardAt | src/lib/wikipedia-pairs.ts:39-51 | the card carries the given id, language "en", 15 steps and a curated pair |
| WikipediaPairs.CardAtPair | src/lib/wikipedia-pairs.ts:40-41 | position n gives the pair at n modulo 30 |
| WikipediaPairs.RotationPeriodic | src/lib/wikipedia-pairs.ts:40-41 | position n + 30 gives the pair of position n |
| WikipediaPairs.RotationCoversPairs | src/lib/wikipedia-pairs.ts:4-42 | any 30 consecutive positions hand out every curated pair |
| WikipediaPairs.PairsAreRaces | src/lib/wikipedia-pairs.ts:4-35 | every pair races between two different articles |
| WikipediaPairs.CardGenerator.constructor | src/lib/wikipedia-pairs.ts:37 | the counter starts at 0 |
| WikipediaPairs.CardGenerator.GenerateCard | src/lib/wikipedia-pairs.ts:39-51 | the card at the current position, then the position moves on by one |
| WikipediaPairs.CardGenerator.GenerateCards | src/lib/wikipedia-pairs.ts:53-55 | `count` cards (none for a negative count), card i at position old + i, and the position moves on by the count |

## Left out

- The language model: `generateText`, the prompt and `stopWhen(stepCountIs(max_steps * 3))` are not modelled. Their effect is given as the tool calls of each step, the sandbox's answer to each call and whether the call finally threw.
- RaceRun.Dones, RaceRun.HasSuccess, RaceRun.ResultsSuccess, RaceRun.RunVerdict and RaceRun.ClientSeesRun assume that every `report_step` tool result carries its value under the key `result`. The handler counts a result only when `"result" in tr` (src/app/api/race/run/route.ts:90 and 102). The SDK's result shape is not part of this model. If the SDK names that field otherwise, the guard is always false: no `done(true)` is sent, `done(false)` always is, and the client's verdict is always false.
- The SDK may run a step's tool calls concurrently. The model runs them in call order, so the event order within a step is the call order.
- A rejected `executeBash` makes the browser tool throw. The model records an error outcome and writes no event. What the SDK does next is part of the given steps.
- Network, timeouts and HTTP: `fetch`, `AbortSignal.timeout`, status codes, headers and the request bodies sent to the sandbox are not modelled. Every reply is a parameter: the parsed body, or the message it failed with.
- Write failures on the response stream are swallowed by `send`. The model treats every write as delivered.
- `closeBrowserSession`'s promise is not awaited by the run handler. The model records the close request; its outcome is swallowed there.
- Asynchrony in the store: each action is split at its `await`, and the parts run atomically. Other actions interleaving with a race in flight, and several races at once, are not modelled.
- The stream is a sequence of already-decoded strings. UTF-8 decoding across chunk boundaries is not modelled.
- Strings are sequences of Unicode scalar values. JavaScript counts UTF-16 code units, so `slice(0, 8000)` and `slice(0, 200)` of text with characters outside the Basic Multilingual Plane cut at different places than modelled.
- JSON covers the canonical text `JSON.stringify` produces for the four event shapes. Any other payload is treated as unparsable and its frame is skipped. A payload of another shape, or with fields of other types, is not modelled.
- Lone surrogates, which `JSON.stringify` writes as `\uXXXX` escapes, cannot occur in the model's strings.
- `AgentAction.timestamp` (`Date.now()`) is dropped; it does not affect any decision.
- `console.error` logging is dropped.
- Card ids (`uuid()`) are parameters. Their freshness is a precondition of `FeedStore.Feed.FetchCardsReply`.
- `fetchCards`'s `count` only goes into the cards route's URL. The cards route, which caps it, is not part of this model. The fetched cards are a parameter.
- `WikiCard.language` is carried but never read: the start handler always uses `en.wikipedia.org`.
- The poll POST with a vote that is not one of the four labels: the vote is typed as a bucket, so the `NaN` count such a request would store is not modelled.
- `generateCards` with a non-integer count is not modelled; the count is an integer.
- A request body that is not JSON, in the run, start and poll handlers, is not modelled. It throws outside the handlers' `try`.
- The start handler's fallback message "Failed to start race" is not modelled. Every failure in the model carries a message.
- Rendering, animation, `AnimatedCursor`, `TypingText` and the poll percentages are not modelled. They are display only and use floating point, timers and randomness.
