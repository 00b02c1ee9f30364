# A verified model of kvelmo's protocols, parsers and stores

kvelmo drives coding agents: it talks to them over JSON-RPC, streaming HTTP APIs and pseudo-terminals, runs
the multi-turn tool loop, and keeps an audit log, recordings, settings, a code index and browser state on
disk. This project models the parts whose behaviour is hard to see from one function and proves what they
promise, over every interleaving, every run and every input.

`dafny verify dfyconfig.toml` checks everything.

| module | models |
|---|---|
| `CodexTransport`, `CodexInvariant`, `CodexGuarantees`, `CodexDelivery`, `CodexNilReply`, `CodexCalls` | the request/response matcher of both Codex transports as a machine of atomic steps |
| `Conversation`, `ConversationLaws` | the multi-turn loop of the API agents, for every provider, tool and interrupt timing |
| `Sse`, `OpenAiStream`, `OpenAiLaws`, `AnthropicStream`, `AnthropicLaws` | the event-stream parser and the two incremental accumulators on top of it |
| `ActivityChain`, `ActivityWriter`, `ActivityRetention`, `ActivityQuery` | the hash-chained activity log: verifier, writer with rotation and cleanup, what it keeps, early-exit query |
| `DotEnv`, `DotEnvLaw`, `DotEnvQuotes` | the `.env` writer and reader, the law that connects them, and the reader's quotes |
| `BrowserState` | the browser profile and its worktree overlay |
| `CodeGraph` | the symbol and edge tables under repeated transactional re-indexing |
| `Pty` | the pseudo-terminal reader, waiter and pump around a bounded drop-oldest buffer |
| `Recorder` | the rotating recorder and its reader |
| `SettingsMerge`, `Migration` | the settings override algebra with its in-memory maps, and the config migration chain |
| `Slug`, `SlugLaws` | slugs and branch names |
| `Common`, `Text`, `SortedSets`, `Provider` | shared vocabulary: options, strings and scanner lines, sorted listings, stream chunks |

Concurrency is a step machine: every access to shared state is one labelled action, `Run` accepts exactly the
possible sequences, and the theorems are about every accepted sequence. Code that updates variables is a
method, or a class with methods, whose `ensures` names a specification function; the promises are proved of
that function. JSON, SHA-256, clocks, network outcomes, failing file operations and map iteration order are
parameters or arbitrary choices.

## Where the code and its promise part

Each of these is proved as an exact characterisation, with a failing case where one is named.

- A `JsonRpcTransport` call waiting for its reply can be handed nil exactly when its channel is closed, or it is
  pending and a Close has yet to drain; a `wsTransport` call never (`CodexNilReply.NilReachableExactly`).
- The directory check carries the hash from file to file although the writer starts every day file afresh, so
  after an undisturbed run it passes exactly when all entries are of one day
  (`ActivityRetention.DirectoryCheckCountsDays`, with `ActivityRetention.TwoDaysAreRejected`).
- After any run a day file is complete exactly when no step removes it while it should hold something and no
  write of its day is dropped for want of an open file (`ActivityRetention.CompleteExactly`). A file that cleanup
  has removed can come back incomplete, when its day is written again and its removal fails then
  (`ActivityRetention.RecreatedFileIsIncomplete`); a file that is never removed lacks an entry when the open for
  another day fails and its own day is written next (`ActivityRetention.FailedOpenDropsTheNextEntry`).
- Saving a `.env` key is read back, with every other key unchanged, exactly when the key is well formed and the
  value has no newline before its trailing space, or reads as empty whatever its newlines
  (`DotEnvLaw.SaveThenLoad`); the very value saved comes back exactly when the key is well formed and the value
  is trimmed, without newline and not in quotes (`DotEnvLaw.ValueSurvives`).
- The `.env` reader takes back a text written in double quotes with its backslashes, newlines and tabs escaped
  exactly when the text has no backslash right before an n or a t (`DotEnvQuotes.QuotingIsTakenBackExactly`).
- The browser overlay loses a cookie value exactly when the state holds that cookie twice, first changed and
  then back at the profile's value (`BrowserState.OverlayKeepsCookieValue`, with
  `BrowserState.StaleCookiesExist`); it loses some attribute of a cookie exactly when the cookie is stale in
  that way, or has the profile's value and is not the profile's cookie
  (`BrowserState.OverlayKeepsWholeCookie`); and it cannot delete (`BrowserState.OverlayGivesBackCookie`,
  `BrowserState.OverlayGivesBackEntry`).
- Re-indexing a file removes the edges other files have into it (`CodeGraph.OnlyOwnEdgesReachTheFile`,
  `CodeGraph.OldEdgesAreGone`, with `CodeGraph.ReindexingLosesAnEdge`); indexing such another file after it puts
  its edge back (`CodeGraph.IndexingTheSourceRestoresTheEdge`).
- The OpenAI parser reports the tokens of the whole stream exactly when no response after the first one with a
  finish reason reports any (`OpenAiStream.UsageIsWholeExactly`, with `OpenAiStream.FinalUsageIsMissed`).
- The event-stream parser inverts the canonical encoding exactly when names are trimmed and newline-free and
  no data line ends in a carriage return (`Sse.ParseInvertsEncodeExactly`). Unlike section 9.2.6 of the WHATWG HTML
  standard it sends an event still open at the end (`Sse.OpenEventIsSent`) and keeps a name over a blank line
  without data (`Sse.NameOutlivesBlankLines`).
- Merging settings into empty ones changes them exactly when a number is negative or a map is present but
  empty (`SettingsMerge.LeftIdentityExactly`).
- Migrating in two legs always ends as migrating in one exactly when no step, at any config the chain arrives
  at it with, does something else because of the version stamped between the legs
  (`Migration.TwoLegsAreOneExactly`, with `Migration.ReadingTheVersionMatters`).

## Model

| member | source | states |
|---|---|---|
| `CodexInvariant.StepKeepsInv` | agent/codex/websocket_transport.go:53-138 | every atomic step of any Call, dispatch or Close keeps the invariant: distinct ids, pending within the calls in flight, at most one send per call, one-slot channels untouched until their send |
| `CodexGuarantees.EveryRunIsSafe` | agent/codex/websocket_transport.go:53-195 | in every interleaving: no send on a closed channel and no double close, distinct ids, each reply channel gets at most one message and it carries its call's id, a dispatch never blocks, a waiting call whose reply arrived can receive it, a wsTransport call never sees nil |
| `CodexDelivery.OtherFramesChangeNothing` | agent/codex/websocket_transport.go:53-89 | a frame without id, with a method name or with an id nobody waits for changes nothing; any other frame does |
| `CodexDelivery.MatchedResponseIsNeverLost` | agent/codex/websocket_transport.go:53-89 | a frame with an empty method name and the id of a pending call is, after any further steps, still held by its dispatch or is the one message sent on that call's channel |
| `CodexDelivery.ReplyAnswersItsCall` | agent/codex/jsonrpc.go:149-198 | a reply a call returns carries its id, came in a frame of the run with that id and no method name, and is no other call's |
| `CodexCalls.ResponseFindsItsCall` | agent/codex/websocket_transport.go:53-135 | while the transport is open, the first such frame for a registered or waiting call is taken for that call and never lost |
| `CodexCalls.OutcomeTellsWhatHappened` | agent/codex/websocket_transport.go:91-135 | in every run a call waits or ends by reply, timer, context or close only after its request was written, and ends by the very event its outcome names |
| `CodexCalls.EveryWaitHasAWayOut` | agent/codex/websocket_transport.go:118-134 | a waiting call can always time out or be cancelled and, exactly once Close has signalled, see the close |
| `CodexCalls.CallAfterCloseIsRefused` | agent/codex/websocket_transport.go:91-95 | a call that enters after Close never gets an id and returns the closed error |
| `CodexCalls.EveryCallCanReturn` | agent/codex/websocket_transport.go:91-135 | no interleaving leaves a call stuck: from every reachable state, also while Close holds the lock, each call can return |
| `CodexCalls.CallsCanSucceed` | agent/codex/websocket_transport.go:53-135 | the undisturbed course of a call is a run, and ends in its reply |
| `CodexNilReply.NilReachableExactly` | agent/codex/jsonrpc.go:255-270 | from every reachable state with a waiting call, some continuation hands it nil if and only if Close closes reply channels and the call's channel is closed, or the call is pending and a drain is still to come |
| `Conversation.ReadStream` | agent/apiagent/base.go:253-310 | the chunk loop stops at the first interrupt or error chunk, with exactly what the chunks before it say |
| `Conversation.ConversationLoop` | agent/apiagent/base.go:175-388 | the whole account of a run: every request carries the history of the turns before it, within budget and uninterrupted; the events are those of the turns; the last one has one of the listed reasons |
| `Conversation.RunFollowsGrammar` | agent/apiagent/base.go:175-388 | events start with Init and end with exactly one terminal event |
| `Conversation.DeliveryKeepsGrammar` | agent/apiagent/base.go:393-405 | whichever optional events a full channel drops, what is delivered still starts with Init and ends with the same single terminal event |
| `ConversationLaws.RoomDecides` | agent/apiagent/base.go:393-405 | with room for every optional event all events are delivered |
| `Conversation.EveryRequestIsTranscript` | agent/apiagent/base.go:187-388 | every request's history is system, user, then blocks of one assistant message and exactly its tool results in call order; at most MaxTurns requests, none once the tokens used reach a positive budget |
| `ConversationLaws.CompleteSumsTheTurns` | agent/apiagent/base.go:312-363 | Complete has the input, the output and the sum of both added up over what the last Done chunk of each turn reports |
| `ConversationLaws.BudgetErrorSumsTheTurns` | agent/apiagent/base.go:204-210 | a budget error has that sum over the turns, which has reached the positive budget |
| `ConversationLaws.RequestsStayBelowTheBudget` | agent/apiagent/base.go:204-210 | each request is made while that sum over the turns before it is below a positive budget |
| `ConversationLaws.InterruptIsWithinTheBudget` | agent/apiagent/base.go:204-219 | a run interrupted between turns is below its budget |
| `ConversationLaws.WhyItStopped` | agent/apiagent/base.go:202-388 | every turn but the last went through undisturbed and asked for tools; the last event is the one that a failed request, a status, an error chunk, an interrupt, an answer without tools or the turn limit calls for |
| `ConversationLaws.EachRequestAddsATurn` | agent/apiagent/base.go:318-383 | each request after the first is the one before, the turn's text and calls in one message, and what each call yielded |
| `ConversationLaws.EachTurnHasItsEvents` | agent/apiagent/base.go:262-383 | the events are, turn by turn, those of the chunks and then one per call with whether it failed |
| `ConversationLaws.LastTurnHasItsEvents` | agent/apiagent/base.go:262-363 | a run that completes ends with the events of its last stream, its whole text and Complete |
| `ConversationLaws.EachChunkAddsItsOwn` | agent/apiagent/base.go:262-310 | a chunk adds its own text, call and event wherever it stands in a stream |
| `Conversation.RunIsDetermined` | agent/apiagent/base.go:175-388 | the account leaves no freedom: one run per configuration, prompt and world |
| `Sse.ParseSSE` | agent/apiagent/stream.go:20-81 | the scan loop computes the parse that the lemmas below are about |
| `Sse.ParseEncoded` | agent/apiagent/stream.go:20-81 | encoded events with well-formed names come back, each data line as the scanner delivers it |
| `Sse.ParseInvertsEncodeExactly` | agent/apiagent/stream.go:20-81 | parsing inverts encoding if and only if names are well formed and no data line ends in a carriage return |
| `Sse.CommentsAreIgnored` | agent/apiagent/stream.go:20-81 | a comment line inserted into the text of a stream between any two lines changes no event |
| `Sse.OtherLinesAreIgnored` | agent/apiagent/stream.go:40-70 | nor does any other line that is not blank and is no event or data field |
| `Sse.OpenEventIsSent` | agent/apiagent/stream.go:76-80 | a stream without the blank line after its last event gives the same events |
| `Sse.NameOutlivesBlankLines` | agent/apiagent/stream.go:42-51 | a name before a blank line without data becomes the name of the next event |
| `Sse.DataSpaceIsOptional` | agent/apiagent/stream.go:60-68 | the space after the colon of a data field may be missing |
| `OpenAiStream.FlushTools` | agent/openai/openai.go:310-342 | the pending calls come out in ascending index order and the map ends empty |
| `OpenAiStream.ParseOpenAIStream` | agent/openai/openai.go:116-209 | the output is the texts, then the calls, then one Done with the summed usage, of the responses up to the end marker or the first that finishes |
| `OpenAiLaws.TakenUntilTheEnd` | agent/openai/openai.go:131-197 | the output is made of the responses before the first end marker or first choice with a finish reason, and that response; what comes after does not matter |
| `OpenAiLaws.EachResponseAddsItsText` | agent/openai/openai.go:157-163 | a response adds the content of its first choice, unless empty, wherever it stands |
| `OpenAiLaws.EachResponseAddsItsFragments` | agent/openai/openai.go:165-184 | a response adds the tool fragments of its first choice, in place |
| `OpenAiLaws.EachResponseAddsItsUsage` | agent/openai/openai.go:143-149 | a response adds its prompt and completion tokens each to its own side |
| `OpenAiLaws.CallIsOfItsFragments` | agent/openai/openai.go:165-184 | an index becomes a call exactly if a fragment has it, with the last id and name that its fragments have and all their arguments in order |
| `OpenAiStream.AccumulatorsHoldFragments` | agent/openai/openai.go:165-184 | whatever the interleaving, an index holds its last id and name and its fragments' arguments concatenated in arrival order |
| `OpenAiStream.OutputShape` | agent/openai/openai.go:116-209 | position by position: the text chunks, one call per index that had a fragment with its id, name and decoded arguments, then exactly one Done with the usage if there is any |
| `OpenAiStream.IndicesOfFragments` | agent/openai/openai.go:310-323 | the emitted indices are strictly ascending and are exactly those with a fragment |
| `OpenAiStream.InterleavingDoesNotMatter` | agent/openai/openai.go:165-184 | streams with the same texts, usage and fragments per index give the same chunks |
| `OpenAiStream.SplittingDoesNotMatter` | agent/openai/openai.go:165-184 | splitting an argument fragment in two, within one event or over several, changes no chunk of the output |
| `OpenAiStream.UsageIsWholeExactly` | agent/openai/openai.go:143-197 | with no negative counts, the final Done carries the tokens of all responses that decode if and only if no response after the first with a finish reason reports any |
| `OpenAiStream.FinalUsageIsMissed` | agent/openai/openai.go:143-197 | a stream that reports its tokens after the response with the finish reason, and none of them counted |
| `AnthropicStream.RunSaysWhatTheEventsSay` | agent/anthropic/anthropic.go:129-252 | after any events the block map holds exactly the blocks opened and not stopped or restarted since, each with its own start's identity and its own fragments; chunks and usage are what the events say |
| `AnthropicStream.ParseStream` | agent/anthropic/anthropic.go:129-252 | the output is what each event before the first terminal one emits, defined from the open blocks, then one final chunk |
| `AnthropicLaws.EachNameMeansItsOwn` | agent/anthropic/anthropic.go:143-246 | an event starts, extends or stops a block, counts tokens, ends the stream or fails exactly if it has that kind's name and its data decodes so |
| `AnthropicLaws.BlockBecomesACall` | agent/anthropic/anthropic.go:145-207 | after any stream, the start of a tool-use block, its JSON fragments and its stop add exactly one call with that id and name and the fragments joined |
| `AnthropicLaws.ToolMessage` | agent/anthropic/anthropic.go:143-246 | a message from message_start to message_stop with one tool use gives that call and Done with the input tokens of its start and the output tokens of its delta |
| `AnthropicLaws.OutputEndsAt` | agent/anthropic/anthropic.go:209-249 | the first message_stop or error event ends the output: Done with the tokens counted before it, each on its own side, or the error's message or raw data |
| `AnthropicLaws.TextIsEmitted` | agent/anthropic/anthropic.go:154-171 | a text delta to a started block is emitted at once |
| `AnthropicLaws.CallIsEmitted` | agent/anthropic/anthropic.go:176-207 | when a started block stops, a tool-use block emits its call with the fragments since its start, any other block nothing |
| `AnthropicLaws.NothingElseIsEmitted` | agent/anthropic/anthropic.go:143-246 | no other event emits anything, nor does one for a block that is not open |
| `AnthropicStream.ExactlyOneFinalChunk` | agent/anthropic/anthropic.go:209-249 | every stream gives exactly one Done or Error, as the last chunk |
| `AnthropicStream.SplittingDoesNotMatter` | agent/anthropic/anthropic.go:154-174 | splitting a JSON fragment anywhere in any stream changes no output |
| `AnthropicStream.InterleavingDoesNotMatter` | agent/anthropic/anthropic.go:154-174 | a JSON fragment may move past any event of another block without changing the output |
| `ActivityChain.VerifyFile` | internal/activitylog/verify.go:59-96 | the scan's line number, hash and verdict for every file, unreadable ones included |
| `ActivityChain.CleanExactlyWhenChained` | internal/activitylog/verify.go:59-96 | the scan is clean if and only if the non-empty lines are chained by their hashes |
| `ActivityChain.ErrorLineIsFirstBreak` | internal/activitylog/verify.go:75-93 | the reported line is the first one that breaks the chain |
| `ActivityChain.SameLastEntrySameChain` | internal/activitylog/verify.go:59-96 | two chains with the same last entry are equal or exhibit a hash collision |
| `ActivityChain.TamperingIsDetected` | internal/activitylog/verify.go:27-96 | with an injective hash, a log that shares the last entry of a valid one is valid if and only if all non-empty lines are the same, however both are spread over files |
| `ActivityChain.LastHashFromFile` | internal/activitylog/verify.go:100-123 | the seed is the hash of the last non-empty line |
| `ActivityChain.VerifyChain` | internal/activitylog/verify.go:27-54 | the result is valid if and only if all files can be read and their non-empty lines are one chain from the empty hash on; it then counts all lines and has error line 0; otherwise it counts the lines up to the first that breaks the chain, or up to the unreadable file, and says why |
| `ActivityChain.ValidExactlyWhenChained` | internal/activitylog/verify.go:27-54 | readable files are valid if and only if their lines, one file after the other, are a chain |
| `ActivityChain.DirectoryPassesExactlyWhenOneFile` | internal/activitylog/verify.go:141-180 | files that are each valid alone are valid together if and only if at most one has an entry |
| `ActivityWriter.Log.WriteEntry` | internal/activitylog/log.go:129-160 | one entry: the new disk, day, handle and hash, through rotation, failed open, cleanup and a removed open file |
| `ActivityWriter.DaysAreDays` | internal/activitylog/log.go:129-134 | a day is 24 hours of UTC |
| `ActivityWriter.Log.Cleanup` | internal/activitylog/log.go:209-241 | the oldest files over the limit go, apart from those that cannot be removed |
| `ActivityWriter.DoomedAreTheOldest` | internal/activitylog/log.go:209-241 | cleanup leaves exactly the newest files, as many as the limit allows |
| `ActivityWriter.EveryFileVerifies` | internal/activitylog/log.go:103-198 | after any entries in any day order, restarts, failed opens and removals, every day file on disk is a chain from the empty hash on and holds only its own day |
| `ActivityRetention.CompleteExactly` | internal/activitylog/log.go:103-241 | after any run, with failed opens, restarts, failed removals and removals from outside, a day file holds what was there followed by all entries of its day, once each, in order, if and only if no step removes it while it should hold something and no write of its day is dropped for want of an open file |
| `ActivityRetention.KeptFileIsComplete` | internal/activitylog/log.go:103-198 | a day file that no step removes is complete if and only if no write of its day is dropped for want of an open file, whatever happens to other days |
| `ActivityRetention.NothingDroppedWhenOpensSucceed` | internal/activitylog/log.go:110-137 | when every open succeeds, no write is dropped for want of an open file, so the files above are complete |
| `ActivityRetention.NothingIsLost` | internal/activitylog/log.go:103-198 | while the days on disk and written are no more than the limit and nothing is removed from outside, the same holds of every day, for any number of entries |
| `ActivityRetention.SurvivorsAreComplete` | internal/activitylog/log.go:103-241 | past the limit, in any order of days and for any number of entries, the same holds of every day file still on disk, if cleanup can remove what it wants to and nothing is removed from outside |
| `ActivityRetention.SurvivorsInOrderAreComplete` | internal/activitylog/log.go:103-241 | even when removals by cleanup fail, the same holds of every day file still on disk, if days come in order, the limit is positive, nothing on disk is of a later day and nothing is removed from outside |
| `ActivityRetention.RecreatedFileIsIncomplete` | internal/activitylog/log.go:129-160 | three writes, all opens succeeding, after which a day file on disk lacks an entry because cleanup removed it once |
| `ActivityRetention.FailedOpenDropsTheNextEntry` | internal/activitylog/log.go:110-137 | three writes after which a day file that no step removed lacks an entry, because an open for another day failed |
| `ActivityRetention.DirectoryCheckCountsDays` | internal/activitylog/verify.go:141-180 | after an undisturbed run from an empty directory (opens succeed, nothing is removed from outside, no more days than the limit) the directory check passes if and only if all entries are of one day |
| `ActivityRetention.TwoDaysAreRejected` | internal/activitylog/verify.go:141-180 | two writes whose directory the check finds invalid |
| `ActivityWriter.DirectoryCheckOnWriterOutput` | internal/activitylog/verify.go:141-180 | what the writer leaves is valid as a directory if and only if no two days have entries |
| `ActivityQuery.ScanFile` | internal/activitylog/query.go:62-81 | one file adds its wanted entries, last first, up to the limit, and says exactly when the limit is reached |
| `ActivityQuery.Query` | internal/activitylog/query.go:24-84 | on all files: the results are the first Limit of what the opened files offer, and the scan ended at the oldest file, at an old one or at the limit; an error is an unreadable file the scan had to look at |
| `ActivityQuery.EarlyExitLosesNothing` | internal/activitylog/query.go:24-84 | on well-dated files (and without a cutoff on any) those results are exactly the first Limit of the full filtered backward scan |
| `ActivityQuery.QueryFinds` | internal/activitylog/query.go:24-84 | on well-dated files (and without a cutoff on any) a query that ends well returns, of all wanted entries newest first, all of them or as many as the limit allows |
| `ActivityQuery.KeepsWhatIsWanted` | internal/activitylog/query.go:64-72 | an entry is wanted exactly if it is recent enough, has an error if that is asked for, and contains an alternative of the pattern apart from the space around it |
| `ActivityQuery.OldFilesDoNotFail` | internal/activitylog/query.go:42-60 | an unreadable file whose day is over before the cutoff fails no query |
| `ActivityQuery.OlderFilesHoldNothing` | internal/activitylog/query.go:42-55 | once a file's day lies before the cutoff, neither it nor an older file holds a wanted entry |
| `ActivityQuery.WriterOutputIsWellDated` | internal/activitylog/log.go:103-198 | every directory the writer can leave is one on which the early exits lose nothing |
| `DotEnv.SaveEnvVarToFile` | settings/dotenv.go:50-108 | the written file, for a missing and for every existing file |
| `DotEnv.LoadEnvFileInto` | settings/envmap.go:97-144 | the reader's line loop, onto any map already there |
| `DotEnvLaw.SaveThenLoad` | settings/dotenv.go:50-108 | for every file, key and value, newlines included: loading after saving equals the old map updated at the key with the trimmed, unquoted value and unchanged elsewhere, if and only if the key is well formed and the value lasts |
| `DotEnv.ReplacedInPlace` | settings/dotenv.go:58-95 | no line moves, appears or disappears; only lines that set the key change |
| `DotEnv.SavedLinesExactly` | settings/dotenv.go:58-95 | each line that sets the key becomes key=value in its place, every other line stays, and key=value comes last if there was none |
| `DotEnv.SavedFileEndsInNewline` | settings/dotenv.go:96-108 | a saved file is never empty and ends in a newline |
| `DotEnvLaw.ReplacedLoads` | settings/dotenv.go:58-95 | replacing updates the key where it was set and nothing else, duplicates, comments and malformed lines included |
| `DotEnvLaw.PiecesLoadOther` | settings/envmap.go:107-141 | a value that does not last leaves its key with another one, whatever its further lines say |
| `DotEnvLaw.ValueSurvives` | settings/dotenv.go:50-108 | for every file, key and value: loading after saving gives the key the very value saved if and only if the key is well formed and the value is trimmed, holds no newline and is not in quotes |
| `DotEnvQuotes.QuotingIsTakenBackExactly` | settings/envmap.go:123-140 | a text written in double quotes with backslashes, newlines and tabs escaped is read back if and only if it has no backslash right before an n or a t |
| `DotEnvQuotes.SingleQuotesAreLiteral` | settings/envmap.go:123-140 | between single quotes every text is read as it is |
| `DotEnv.LoadEnvMap` | settings/envmap.go:72-92 | the project file lies over the global one |
| `BrowserState.MergeStates` | internal/browser/session.go:135-175 | if no domain or path holds a bar, each cookie of a or b, by domain, path and name, is there exactly once, as the last of b that is the same cookie or else the last of a, and no other; storage has every origin and entry of both, with the value of b where it has one |
| `BrowserState.DiffStates` | internal/browser/session.go:206-241 | if no domain or path holds a bar, exactly the cookies of b, in order, that a lacks or ends up with another value of; exactly b's new or changed entries, origins without one left out |
| `BrowserState.JarHoldsTheLast` | internal/browser/session.go:142-154 | under each key the last cookie of that key is kept |
| `BrowserState.OverlayKeepsCookieValue` | internal/browser/session.go:135-175 | merging the extracted overlay gives a cookie the value of the full merge if and only if it is not stale |
| `BrowserState.DistinctIsNeverStale` | internal/browser/session.go:206-225 | states with each cookie once have nothing stale, so their round trip keeps every value |
| `BrowserState.OverlayKeepsWholeCookie` | internal/browser/session.go:206-225 | for every state, repeated cookies included, all attributes are kept if and only if the cookie is not stale and its value differs from the profile's or the whole cookie is the profile's |
| `BrowserState.OverlayKeepsStorage` | internal/browser/session.go:227-238 | every localStorage lookup, missing as empty, agrees with the full merge |
| `BrowserState.OverlayGivesBackCookie` | internal/browser/session.go:135-175 | merging the extracted overlay gives a cookie the value it has in the state itself if and only if it is not stale and not one of the profile that the state lacks |
| `BrowserState.OverlayGivesBackEntry` | internal/browser/session.go:159-172 | a localStorage lookup agrees with the state itself if and only if the state has the entry or the profile reads as empty there |
| `BrowserState.StaleCookiesExist` | internal/browser/session.go:219-225 | a state with a stale cookie, for every cookie |
| `BrowserState.ExtractAfterMerge` | internal/browser/session.go:206-241 | extracting again after merging lists the overlay's cookies, each key once |
| `BrowserState.ExtractIsTheOverlay` | internal/browser/session.go:206-241 | it is the overlay itself up to order if and only if the overlay names each cookie once |
| `BrowserState.ExtractStorage` | internal/browser/session.go:227-238 | for localStorage the overlay comes back exactly |
| `BrowserState.KeyIsInjective` | internal/browser/session.go:144-147 | keys agree exactly when domain, path and name do, if domain and path hold no bar (the identity triple of section 5.3 of RFC 6265) |
| `BrowserState.KeysTellCookiesApart` | internal/browser/session.go:144-147 | the key of a cookie tells its domain, path and name apart if neither holds a bar |
| `BrowserState.BarsCollide` | internal/browser/session.go:144-147 | a bar in domain or path always lets another cookie share the key |
| `CodeGraph.Graph.IndexFile` | internal/codegraph/graph.go:107-186 | commits the whole indexing or, whichever statement fails, leaves the database as it was; what the transaction had reached is sound |
| `CodeGraph.EveryStageIsSound` | internal/codegraph/graph.go:126-185 | after every statement inside a transaction every edge joins two live symbols and ids are within the counter |
| `CodeGraph.IndexedRows` | internal/codegraph/graph.go:132-158 | the file has exactly its latest symbols under new ids; rows of other files and edges not touching the file are unchanged |
| `CodeGraph.InsertedEdge` | internal/codegraph/graph.go:160-183 | a new edge starts at the file's last symbol of its name and ends at the file's last one, or only without one at another file's |
| `CodeGraph.ResolvesExactly` | internal/codegraph/graph.go:160-183 | an edge resolves if and only if its source is a symbol of the file and its target is one or is found elsewhere |
| `CodeGraph.ResolvableIsInserted` | internal/codegraph/graph.go:160-183 | conversely, every parsed edge that resolves is inserted, between symbols of its two names |
| `CodeGraph.InsertedInOrder` | internal/codegraph/graph.go:160-183 | one edge for each parsed edge that resolves, in the order of the parse, and no other |
| `CodeGraph.IndexingTheSourceRestoresTheEdge` | internal/codegraph/graph.go:160-183 | indexing a target's file and then the source's file leaves the edge in the table, to a symbol of the target name, if the lookup finds a row wherever there is one |
| `CodeGraph.OnlyOwnEdgesReachTheFile` | internal/codegraph/graph.go:132-138 | after indexing a file only its own edges reach its symbols |
| `CodeGraph.OldEdgesAreGone` | internal/codegraph/graph.go:132-138 | every edge that touched the file before is gone, also those of other files |
| `CodeGraph.ReindexingLosesAnEdge` | internal/codegraph/graph.go:132-138 | two files and an edge between them that is there, and gone when its target is indexed again |
| `CodeGraph.LatestParseIsStored` | internal/codegraph/graph.go:107-186 | over any indexings, the symbols of each file's latest parse are in the table under the ids that parse was given |
| `CodeGraph.StoredIsLatestParse` | internal/codegraph/graph.go:107-186 | and the table holds nothing else |
| `CodeGraph.IdsAreNeverReused` | internal/codegraph/graph.go:38-48 | however many indexings follow, an id still there means the same symbol and one that is gone never comes back |
| `CodeGraph.EdgesAreTheLiveOnes` | internal/codegraph/graph.go:132-183 | the edge table is, in order, every edge ever inserted whose two symbols are still there |
| `Pty.RunKeepsInv` | agent/claudemcp/pty_process.go:127-167 | every step of reader, waiter and pump keeps the channel, control and event invariants |
| `Pty.EveryRunIsSafe` | agent/claudemcp/pty_process.go:127-167 | no send after close and no double close; what is received, buffered and held is in reading order with the text read; every chunk read is among these or dropped, and only what is older than the buffer is dropped; events are the received chunks, then at most one terminal event, idle only after output |
| `Pty.NewestIsEnqueued` | agent/claudemcp/pty_process.go:138-151 | the second send always finds room |
| `Pty.ShortOutputIsNeverDropped` | agent/claudemcp/pty_process.go:127-151 | nothing is dropped as long as no more than 1024 chunks have been read |
| `Pty.ReadsUntilOneFails` | agent/claudemcp/pty_process.go:127-167 | the reader goes on until a read fails and reads nothing after that; lines is closed only after the exit |
| `Pty.EveryRunCanShutDown` | agent/claudemcp/pty_process.go:127-167 | from every reachable state reader and waiter can close both channels, whatever the pump does |
| `Pty.ClosedMeansDrained` | agent/claudemcp/claudemcp.go:402-412 | the pump sees the channel closed only after every chunk read was received or dropped |
| `Pty.TerminalEventHasItsCause` | agent/claudemcp/claudemcp.go:380-446 | the terminal event of a run is the one that belongs to a choice of the run: a signal's own report, an idle completion, or the error for an exit, a cancellation or a failure |
| `Pty.RunPump` | agent/claudemcp/claudemcp.go:331-448 | the pump emits the chunks as Stream events and exactly one terminal event, at the first choice that ends the session and with what that choice says |
| `Recorder.Recorder.Append` | agent/recorder/recorder.go:207-240 | a record is accepted exactly when the recorder is open, a rotation that is due succeeds and the record encodes; accepted records are appended, others leave no trace |
| `Recorder.Recorder.Rotate` | agent/recorder/recorder.go:274-301 | a new file with its header, or a closed recorder with every record kept |
| `Recorder.ReadAll` | agent/recorder/replay.go:24-113 | a file reads as its records exactly if it has a header line and every other line decodes, one record per line in order; otherwise it is an error |
| `Recorder.FilesReadBack` | agent/recorder/replay.go:93-113 | reading the files in rotation order gives back the recorded sequence |
| `Recorder.Recorder.EverythingReadsBack` | agent/recorder/recorder.go:207-334 | once flushed or closed, the files give back exactly the accepted records |
| `Recorder.FileShape` | agent/recorder/recorder.go:181-204 | every file is one header and then records, at most max(maxLines, 2) lines |
| `Recorder.Recorder.OnlyTheLastFileHasRoom` | agent/recorder/recorder.go:207-222 | every file but the last takes up the whole line limit |
| `SettingsMerge.OverrideScalar` | settings/storage_merge.go:14-169 | per kind of field, exactly a non-empty text or list, a given switch, a positive number or a raised flag overrides |
| `SettingsMerge.Merge` | settings/storage_merge.go:14-169 | field by field and map by map the destination becomes the merge of both, nothing but it and its own maps changes, and it shares no map with the source |
| `SettingsMerge.MergeIsAssociative` | settings/storage_merge.go:14-317 | merging is associative on all handled fields |
| `SettingsMerge.EmptyIsRightIdentity` | settings/storage_merge.go:14-317 | merging empty settings changes nothing |
| `SettingsMerge.LeftIdentityExactly` | settings/storage_merge.go:14-317 | merging into empty settings gives them back if and only if no number is negative and no map is present but empty |
| `SettingsMerge.LayerSettings` | settings/storage.go:176-203 | the effective settings are defaults, preset, global and project layered in that order; the loaded ones are not changed and share no map with them |
| `SettingsMerge.PresetIsTheNamedOne` | settings/storage.go:176-203 | the preset layer is the one the project names, or else the one the global settings name |
| `SettingsMerge.LastLayerThatSetsItWins` | settings/storage.go:176-203 | a field has the value of the last layer that sets it |
| `SettingsMerge.FlagsStick` | settings/storage_merge.go:171-236 | a flag is on if and only if some layer turns it on |
| `SettingsMerge.LastLayerThatHoldsTheKeyWins` | settings/storage.go:176-203 | a map key has the value of the last layer that holds it |
| `Migration.Config.MigrateTo` | settings/version.go:83-115 | the config, the error and whether anything changed, for every chain, config and target |
| `Migration.MigrationFor` | settings/version.go:69-77 | the first migration that starts at the version, or none if there is none |
| `Migration.SuccessRunsEachOnce` | settings/version.go:83-115 | on success exactly the migrations current to target-1 ran, once each and in order, and the target is stamped |
| `Migration.RunsClimb` | settings/version.go:93-111 | conversely, where such a run exists the loop succeeds with its outcome |
| `Migration.FailureTellsWhere` | settings/version.go:83-115 | a failed run was refused unchanged for a newer version, or ran one migration per version up to the one it names, where there is no migration, it goes elsewhere, or it fails and leaves what it left |
| `Migration.VersionIsRead` | settings/version.go:50-66 | a missing or odd version is 0, a whole number itself, a float without its fraction |
| `Migration.SecondRunChangesNothing` | settings/version.go:86-91 | a second run changes nothing |
| `Migration.TwoLegsAreOneExactly` | settings/version.go:83-115 | migrating to any m and then to any n gives the same error, or the same config, as straight to n, for all configs, if and only if at every config a chain can arrive with, the next step does the same with and without the stamp, apart from the version |
| `Migration.TwoLegsAreOne` | settings/version.go:83-115 | it is enough that each migration does the same to configs that differ in the version only; writing the version is allowed |
| `Migration.ReadingTheVersionMatters` | settings/version.go:83-115 | a chain whose second step copies the version, for which the legs differ |
| `Slug.CollapseHyphens` | internal/conductor/conductor_job_helpers.go:295-298 | replacing pairs until there are none terminates and collapses every run of hyphens |
| `Slug.Slugify` | internal/conductor/conductor_job_helpers.go:280-309 | every title gives a slug: at most 50 characters, runs of letters and digits joined by single hyphens |
| `Slug.FixedExactlyWhenASlug` | internal/conductor/conductor_job_helpers.go:280-309 | slugify leaves a text alone if and only if it is a slug already |
| `Slug.SlugifiedIsIdempotent` | internal/conductor/conductor_job_helpers.go:280-309 | slugifying twice is slugifying once |
| `Slug.SlugKeepsTheLetters` | internal/conductor/conductor_job_helpers.go:280-309 | a slug has the letters and digits of the lower-cased title in order, all of them unless the length cut it |
| `SlugLaws.WordsAreJoined` | internal/conductor/conductor_job_helpers.go:280-309 | two slugs with a space, an underscore or a hyphen between them are joined by one hyphen |
| `SlugLaws.LettersAndDigitsStay` | internal/conductor/conductor_job_helpers.go:280-309 | a character that lower-cases to a letter or digit stays as that |
| `SlugLaws.OtherCharactersGo` | internal/conductor/conductor_job_helpers.go:280-309 | any other character leaves no trace |
| `SlugLaws.CutAtFifty` | internal/conductor/conductor_job_helpers.go:280-309 | a longer slug is cut to its first 50 characters, or 49 where the cut would leave a hyphen |
| `Slug.GenerateBranchName` | internal/conductor/conductor_job_helpers.go:36-76 | no branch name has two hyphens in a row or one at its end, and none of the letters and digits of the interpolated pattern is lost |
| `SlugLaws.EachPlaceholderHasItsOwn` | internal/conductor/conductor_job_helpers.go:36-70 | filling in the placeholders one after the other fills in each with its own text, if key and slug hold no brace |
| `SlugLaws.KeyMayBeAPlaceholder` | internal/conductor/conductor_job_helpers.go:60-70 | a key that is a placeholder itself is filled in again |
| `SlugLaws.NoKeyNoHyphens` | internal/conductor/conductor_job_helpers.go:60-70 | without a key its placeholder goes together with the one or two hyphens after it |
| `SlugLaws.DefaultNames` | internal/conductor/conductor_job_helpers.go:36-70 | the default pattern gives feature/key--slug, or feature/slug without a key |

## Left out

Assumed, as parameters with stated laws:

- JSON and YAML encoding and SHA-256: decoding inverts encoding, encoded lines are non-empty and one line long; the hash is injective only where a lemma says so.
- Lower-casing of a character, which leaves letters a to z, digits and hyphens alone.
- Writes to an open file succeed and lines fit the scanner's buffer; reads, opens, closes and removals may fail where the models say so.
- Timestamps are UTC, so a day is a day number.

Not modelled:

- Widths of integers: ids, token counts and line counts do not overflow.
- Requests sent the other way (Notify, Respond, handlers) on the Codex transports, and the fields of a response beyond its id and payload.
- Context cancellation inside the stream parsers, and ParseNDJSON.
- The default system prompt, tool implementations, output truncation and metrics of the API agents.
- ListByMethod, ListByTaskTrace and the forwarder of the activity log: the same scans without the early exit on dates.
- InjectEnvVars, ProcessEnv, KVELMO_ environment overrides and token masking.
- Browser states with a null map inside localStorage; saving and loading the state files.
- The Go parser behind the code graph, its queries and IndexDirectory; SQLite's own failures appear only as failing statements.
- Starting and interrupting the child process, timers as durations, and the rendezvous server: what they deliver to the pump is an arbitrary choice in every round.
- Checking and sanitising of job ids and file names in the recorder, listing and filtering of recordings; files are taken in the order of rotation, which is not the order of their names.
- Fields of Settings that Merge does not mention; lists are values, so their shared backing arrays are not modelled. The repeated field blocks of Merge are one rule per kind of field.
- Conductor phases, worker pools, git, the command line, the web interface and the registries.

Stated with less than the code:

- Recorder.Recorder.Append: what is read back is the sanitised record with its event in compact JSON form, which is what the program writes.
