# Verified model of the council and harness core

The program answers a hard message by asking several model "seats" for views of
it and a judge for a verdict over those views, and it measures changes to its
seat configurations with a harness of cached, graded responses. This project
models the parts of it where a mistake would be silent, and proves what they keep.

* **One council run** (`CouncilRows`, `CouncilRun`, `CouncilInvariant`,
  `CouncilOutcome`, `CouncilRequest`, `CouncilProgress`, `CouncilStory`, `CouncilTimes`). The run's goroutines (the view calls, the
  coordinator, the drain, the judge phase) and the other requests that may
  supersede it are one labelled transition system over any number of seats. A step
  is one statement that reads or writes shared state; gateway calls may end in any
  way. `CouncilRows.RequestRecord` is the row store written as the program writes
  it, each method proved against the function the transition system uses. An
  inductive invariant over every interleaving gives the theorems about rows, events,
  termination and superseding; `CouncilStory` and `CouncilTimes` tie what is stored and
  published to the replies and times the run's steps were given.
* **The event registry** (`Registry`, `RegistryDelivery`, `RegistryOnce`, `RegistryCleaning`). Publishers,
  subscribers, unsubscribers and the cleaner with their two levels of mutexes.
* **Canonical JSON, cache keys and the response cache** (`Json`, `CanonicalJson`,
  `CacheKey`, `ResponseCache`, `CacheRace`, `FreshRace`). `ResponseCache.Runner` is the
  sequential code; `CacheRace` and `FreshRace` are about any number of callers at once.
* **The strict-schema normaliser and the gateway's independent strictness test** (`StrictSchema`,
  `StrictPaths`).
* **The lenient parser, the replies it decodes and the hand-written JSON printer**
  (`BalancedObject`, `LenientParser`, `StructText`, `Replies`, `ReplyForms`, `EscapedTicks`, `StoredView`,
  `JsonQuote`). `firstBalancedObject` and the fence stripping exist twice in the program,
  in `internal/schema/parse.go` and `internal/grading/absolute.go`; they are modelled
  once. `StructText` is the text json.Marshal writes for structs, `Replies` the types of
  `internal/schema/schema.go` with their decoders, `StoredView` what becomes of a view or
  judge that is stored as JSON text and read again.
* **Pack lifecycle** (`Packs`, with the bundle and baseline rows of a publish in
  `PublishRows`), **pairwise comparison** (`Pairwise`), **week rotation** (`Rotation`,
  `Sentinel`) and **absolute grades** (`AbsoluteGrade`, `ScoreContainer`, `ScoreForms`,
  `GradeForms`).

`Text` holds strings, their order and sorting; `Decode` what encoding/json makes of a
value for a Go type.

Assumptions. Store reads and writes succeed except where a method or a step says
otherwise, and each SQL statement is atomic. Clocks are numbers a caller passes in; deadlines
and cancellations are steps that may come at any time. SHA-256 is any function to
64-character texts that does not collide on the texts being compared. Map iteration
order is arbitrary. JSON numbers are literal tokens. Strings are sequences of Unicode
scalar values: Go strings that are not valid UTF-8 are excluded, here and in every theorem
about texts and keys. encoding/json rewrites their bad bytes to U+FFFD, so on such strings
neither canonical texts nor cache keys are injective, and `JsonQuote.QuoteRoundTrip` says
nothing about their bytes.

Where the code and its comments differ, the model follows the code:

* The judge phase marks the row `running_judge` whatever its state is
  (`internal/council/run.go:511-513`), so a supersede that was written earlier is
  lost. `CouncilOutcome.SupersededExactlyIf` says which supersedes survive and
  `CouncilOutcome.EarlySupersedeIsLost` gives a run.
* `firstBalancedObject` only ever considers the first opening brace outside a
  string: an unclosed one hides every object after it
  (`BalancedObject.SucceedsIff`, `BalancedObject.LaterObjectIsMissed`).
* A property named `required` or `properties`, or one named `type` whose schema is
  the text `object`, makes a properties map look like an object node. One walk then
  leaves a schema `walkRequired` refuses; `StrictSchema.OutputIsCompleteIff` is the
  exact condition, `StrictSchema.TrapFails` an instance.
* A fresh request can hit when an empty and an absent bundle hash are both in use,
  because the key identifies them and the repetition count does not
  (`ResponseCache.FreshMissesExactlyIf`, `ResponseCache.FreshCanHit`), or when two
  fresh requests race. `FreshRace.RacingFreshReusesExactlyIf` is the exact condition
  among any number of callers, `FreshRace.LoneFreshMisses` the one a caller can check
  beforehand.
* JSON text holding two code fences, which can only stand inside its strings, is not
  parsed, although it is valid: stripping puts line breaks into the strings
  (`StoredView.ParsesExactlyIf`). A view whose texts hold two fences is still accepted
  from a reply that writes the backticks as escapes (`StoredView.EveryViewHasAReply`), is
  then stored with the fences in plain (`StoredView.FencesAreStored`) and cannot be read
  back (`StoredView.StoredButLost`, an instance in `StoredView.LostViewIsLost`).
* Publishing again over the same selection cases gives each judge baseline a bundle id
  that is never stored, because the stored bundle keeps its row
  (`PublishRows.JudgeNamesStoredBundleExactlyIf`, `PublishRows.SecondPublishDangles`, an
  instance in `PublishRows.OneCaseDangles`); the sentinel run, which loads that bundle,
  then fails.
* Accepted flags can lack a type (`AbsoluteGrade.FlagsAreTypedExactlyIf`, an instance in
  `AbsoluteGrade.EmptyFlagIsAccepted`).
* Events can reach a subscriber out of order when publishers of one request overlap
  (`RegistryOnce.PrefixExactlyIfInTurn`, `RegistryOnce.OverlapReorders`).
* A rollback whose second status update and whose compensating write both fail leaves
  no pack active (`Packs.RollbackKeepsSingleExactlyIf`).
* `Init` demotes nothing (`Packs.InitKeepsSingleExactlyIf`).
* A sixth, colliding score key is accepted, not refused, and which of the two scores
  wins depends on the order in which a map is walked
  (`ScoreContainer.WalkMattersExactlyIf`, `ScoreContainer.SixthKeyDependsOnWalk`).
* A score given as `null` is accepted as 0 (`ScoreContainer.ScoresAreWrittenExactlyIf`,
  `ScoreContainer.NullsCountAsZero`).
* With no seats at all a run would hang (`CouncilProgress.NoSeatsHang`); the program
  has three.

## Model

| member | source | states |
|---|---|---|
| `CouncilRows.RequestRecord.UpdateRequestProgress` | internal/store/request_progress.go:22-75 | fields without a value keep their column, the others are overwritten, the state unconditionally |
| `CouncilRows.RequestRecord.UpdateRequestStateIfNotSuperseded` | internal/store/request_progress.go:79-89 | the state changes exactly if the row is not superseded, and the result says so |
| `CouncilRows.RequestRecord.SetFirstUsableViewMsIfUnset` | internal/store/request_progress.go:92-99 | only the first usable view sets the time |
| `CouncilRows.RequestRecord.SetSuperseded` | internal/store/requests.go:166-173 | the row becomes superseded and names the newer request |
| `CouncilRows.RequestRecord.UpdateRequestViewState` | internal/store/requests.go:145-154 | one seat's row is replaced and no other |
| `CouncilRows.RequestRecord.UpdateJudgeResult` | internal/store/request_progress.go:148-165 | the judge row is replaced, and reading its two JSON columns gives the two seat lists |
| `CouncilRows.RequestRecord.RecordView` | internal/council/run.go:257-308 | the branches of recordView have the effect of the five statements the transition system interleaves |
| `CouncilRows.RequestRecord.FinishJudge` | internal/council/run.go:621-697 | run without interference: judge row, result event, and, unless the row cannot be read, guarded state, timings and done event, with included the sorted complement of missing |
| `CouncilRows.SeatsNotIn` | internal/council/run.go:522-533 | the seats outside a set, sorted |
| `CouncilOutcome.JudgeWritesFinish` | internal/council/run.go:657-695 | the judge's last five steps in a row write what FinishJudge writes when the row can be read |
| `CouncilInvariant.NextKeepsInv` | internal/council/run.go:155-254 | every step of every goroutine and of every other request keeps the invariant |
| `CouncilInvariant.ExecKeepsInv` | internal/council/run.go:155-254 | the invariant holds in every state of every run over any distinct seats |
| `CouncilInvariant.ClosedChannelIsUnreachable` | internal/council/run.go:204-209 | the coordinator never finds the channel closed while it still counts on results |
| `CouncilInvariant.CallViewIsGood` | internal/council/run.go:319-501 | from the reply alone: a view result is usable and terminal exactly for a stored answer that was parsed or is not blank, flags danger exactly if it was parsed and is urgent, timed out exactly for a timeout, and names the reason of any failure |
| `CouncilOutcome.JudgeStartsOnce` | internal/council/run.go:187-196 | counted over its steps, a run starts the judge phase once as soon as it is triggered, and not before |
| `CouncilOutcome.IncludedIsFrozen` | internal/council/run.go:216-240 | once triggered, included and order stay the same in every continuation, and the judge phase only moves forward |
| `CouncilOutcome.RowsAtDone` | internal/council/run.go:518-656 | at done the marked view rows are the included seats, the judge row lists them and their complement sorted, no_independent_views holds exactly if there are none, the announced state is complete exactly if the judge succeeded and no seat is missing, and the timings are set even when superseded |
| `CouncilRequest.NextKeepsColumns` | internal/council/run.go:278-308 | every step from a state within the control invariant, whoever takes it, keeps what the request row's columns say: first usable time, danger flag, judge times and counts |
| `CouncilRequest.ColumnsAtDone` | internal/council/run.go:278-308 | at done the first usable time is set exactly if a view is included, the danger flag is up exactly if a danger event was published, the views counted in time are exactly those whose row was completed by the views deadline, all of them included, and a judge counted in time succeeded |
| `CouncilOutcome.EventsNameTheIncluded` | internal/council/run.go:516 | judge_started lists each included seat once, in order of arrival; the result event lists included and missing sorted |
| `CouncilOutcome.LogAtDone` | internal/council/run.go:507-696 | one judge_started, one judge result and one done, in this order; every view_complete before judge_started, every view outcome and danger before the result, only superseded after done |
| `CouncilOutcome.OneOutcome` | internal/council/run.go:301-307 | in any state of a run no seat has two outcome events, and the one it has agrees with its row |
| `CouncilOutcome.EveryOutcome` | internal/council/run.go:243-253 | in a finished run every seat has an outcome event |
| `CouncilStory.ReplyDecides` | internal/council/run.go:204-308 | in a finished run every seat has given exactly one reply, and its row, its outcome event and its danger event follow from that reply and from whether the coordinator took the result before the judge was triggered; the view is included exactly if it did and the reply is a good answer |
| `CouncilTimes.JudgeReplyDecides` | internal/council/run.go:560-656 | in a finished run the judge row, the result event, the judge's danger and the announced state follow from the one reply the judge call got |
| `CouncilTimes.JudgeTimesAtDone` | internal/council/run.go:511-513 | the judge's start and deadline and the final timings are those the run's steps were given |
| `CouncilTimes.ViewTimesAtDone` | internal/council/run.go:284-296 | every view row has the time of the one step that wrote it, the first usable time is that of the first usable result recorded in time, and the views counted in time are the included ones written by the deadline |
| `CouncilTimes.NamesLastSuperseder` | internal/store/requests.go:166-173 | at every point the row names the request that superseded it last |
| `CouncilOutcome.SupersededExactlyIf` | internal/store/request_progress.go:79-89 | in every reachable state: a row the judge phase has marked is superseded exactly if a supersede was written after the mark, an unmarked one exactly if one was written at all |
| `CouncilOutcome.SupersededStays` | internal/council/run.go:678-694 | superseded after the mark, the row stays superseded in every continuation |
| `CouncilOutcome.EarlySupersedeIsLost` | internal/council/run.go:511-513 | a run in which the row names its superseder but is running_judge |
| `CouncilProgress.NoDeadlock` | internal/council/run.go:204-253 | until it has returned, a run can take a step of its own |
| `CouncilProgress.StepsUntilReturned` | internal/council/run.go:204-254 | a run can step exactly until the coordinator has returned, and then done has been told |
| `CouncilProgress.StepWeighs` | internal/council/run.go:164-254 | every own step lowers the measure, every other step leaves it |
| `CouncilProgress.RunsEnd` | internal/council/run.go:155-254 | a run over n seats takes at most 8n + 21 steps of its own |
| `CouncilProgress.CanAlwaysFinish` | internal/council/run.go:155-254 | from every reachable state own steps alone lead to the end |
| `CouncilProgress.NoSeatsHang` | internal/council/run.go:198-253 | with no seats the judge is never triggered and the run hangs |
| `Registry.NextKeepsInv` | internal/council/registry.go:74-94 | every step of publishers, subscribers, unsubscribers and the cleaner keeps the registry's invariant |
| `RegistryDelivery.ChannelsAreSafe` | internal/council/registry.go:209-241 | in every interleaving nothing is sent on a closed channel and none is closed twice; what was sent is what was received and what is buffered |
| `RegistryDelivery.StepsAreSafe` | internal/council/registry.go:209-241 | no step that can follow puts anything into a closed channel, and a subscriber is closed once, both its channels having been open |
| `RegistryDelivery.UnsubscribeCompletes` | internal/council/registry.go:144-153 | an unsubscriber that finds the mutexes free is out of the fan-out after its first step and closed after its second |
| `RegistryDelivery.WaitingSenderSeesNoClose` | internal/council/registry.go:220-229 | the branch of send that waits for the subscriber's end is never taken |
| `RegistryDelivery.NoDeadlock` | internal/council/registry.go:182-241 | while anyone is in the middle of something, somebody can go on, even if no subscriber reads |
| `RegistryDelivery.DeliveryIsAPrefix` | internal/council/registry.go:182-206 | with one publisher at a time per request, a subscriber's deliveries are a prefix of what was published since it subscribed, complete while it is in the fan-out and idle |
| `RegistryDelivery.NothingAfterAMiss` | internal/council/registry.go:197-206 | under the same condition a subscriber that missed an event is sent nothing more |
| `RegistryOnce.DeliveredAtMostOnce` | internal/council/registry.go:182-206 | however publishers overlap, what a subscriber is sent and reads is, with multiplicity, part of what was published since it subscribed, and no publish reaches it twice |
| `RegistryOnce.PrefixExactlyIfInTurn` | internal/council/registry.go:182-241 | however publishers overlap, a subscriber has been sent a prefix of what was published since it subscribed exactly if no step of the run sent it a notice while it was owed an earlier one |
| `RegistryOnce.OverlapReorders` | internal/council/registry.go:182-206 | two overlapping publishers can be delivered in the other order, so the prefix needs one publisher at a time |
| `RegistryCleaning.WhyClosed` | internal/council/registry.go:74-94 | a closed subscriber has unsubscribed, or its run was marked done, or a publisher gave up waiting for space in its buffer |
| `RegistryCleaning.OnlyDoneRunsAreDeleted` | internal/council/registry.go:82-89 | a run's entry is deleted by the cleaner only, and only if the run was marked done |
| `RegistryCleaning.DoneIsRemembered` | internal/council/registry.go:158-168 | a run once marked done stays marked, and can be cleaned, as long as its entry is there |
| `Json.ValueRoundTrip` | internal/hash/hash.go:29-108 | the reader, which skips insignificant white space and joins surrogate pairs, gives an encoded tree back and stops where the text does, whatever follows |
| `Json.StringRoundTrip` | internal/hash/hash.go:54-75 | reading an encoded string gives the string back |
| `Text.Sort` | internal/hash/hash.go:32-36 | any order of collecting keys sorts to the same listing |
| `Text.LessExactlyIf` | internal/hash/hash.go:36 | a text sorts before another exactly if it is a proper prefix of it or has the smaller character where they first differ |
| `CanonicalJson.CanonicalJSON` | internal/hash/hash.go:13-17 | the two-pass writer computes the canonical text |
| `CanonicalJson.MarshalObject` | internal/hash/hash.go:54-75 | the buffer loop writes the members in key order, or fails where a number is invalid |
| `CanonicalJson.CanonicalInjective` | internal/hash/hash.go:13-17 | two trees have the same canonical text exactly if they are equal, objects as maps |
| `CanonicalJson.CanonicalDecodes` | internal/hash/hash.go:86-108 | the canonical text decodes to the tree |
| `CanonicalJson.CanonicalIsFixed` | internal/hash/hash.go:86-108 | decoding and encoding again is the identity on canonical texts |
| `CanonicalJson.CanonicalSelfDelimiting` | internal/hash/hash.go:20-27 | texts hashed one after the other can be told apart |
| `CacheKey.DecimalInjective` | internal/store/cachekey.go:24-31 | different repetitions are written differently |
| `CacheKey.KeysAgree` | internal/store/cachekey.go:19-32 | two cache keys agree exactly if all six inputs do, a missing bundle counting as an empty one |
| `CacheKey.KeyTextNamesInputs` | internal/store/cachekey.go:19-32 | the hashed text decodes to an object with exactly the six inputs under their names, a missing bundle as an empty one |
| `ResponseCache.MaxStoredIs` | internal/store/cachekey.go:37-60 | the highest repetition stored for exactly these columns, or -1 |
| `ResponseCache.Runner.InsertOrReuse` | internal/harness/cache.go:220-230 | the row is added, or the one already stored under its key is returned and counted as a hit |
| `ResponseCache.Runner.StoreFailed` | internal/harness/cache.go:135-167 | timeouts and other failures are counted apart and stored with their error, latency, spend and text |
| `ResponseCache.Runner.StoreSuccess` | internal/harness/cache.go:170-215 | an answer is stored with the model, usage, latency, text and word count it came with; an unexpected model is stored and counted as a failure; a clash returns the row already stored |
| `ResponseCache.Runner.GenerateResponse` | internal/harness/cache.go:50-113 | alone: a stored key is returned without a call, anything else is called once, counted once and stored under its own key |
| `ResponseCache.RowRecords` | internal/harness/cache.go:135-215 | for each way a call can end: which text, model, usage, latency, error and word count the stored row has, under its own key and inputs |
| `ResponseCache.CountedIs` | internal/harness/cache.go:138-142 | each call is counted once, as a timeout, a failure or neither |
| `ResponseCache.WordCountIs` | internal/harness/cache.go:208 | the word count is the number of places where a run of other characters than white space starts |
| `ResponseCache.FreshMissesExactlyIf` | internal/harness/cache.go:67-81 | a fresh request misses exactly if no stored row spells the missing bundle the other way at the next repetition |
| `ResponseCache.FreshMisses` | internal/harness/cache.go:67-81 | where bundle hashes are never empty a fresh request always misses |
| `ResponseCache.FreshCanHit` | internal/store/cachekey.go:20-23 | a table in which a fresh request hits |
| `CacheRace.NextKeepsInv` | internal/harness/cache.go:75-113 | every statement of every caller, production insert and prune keeps the invariant |
| `CacheRace.OneRowPerKey` | internal/store/responses.go:44-64 | in every interleaving no key is stored twice |
| `CacheRace.OneRowPerHashedKey` | internal/store/cachekey.go:19-32 | in particular under the real keys, hashed with any function to 64-character texts |
| `CacheRace.SameRow` | internal/harness/cache.go:75-113 | callers with the same inputs and repetition are given the same row; so are all non-fresh callers with the same inputs |
| `CacheRace.CallsAddUp` | internal/harness/cache.go:100-151 | calls are timeouts plus failures plus successes plus calls in flight, and hits are the callers given an earlier row, at every point |
| `CacheRace.ClashIsResolved` | internal/harness/cache.go:220-230 | a caller whose insert clashed always finds the row |
| `CacheRace.AloneIsGenerateResponse` | internal/harness/cache.go:50-113 | a caller's statements with nobody in between have the effect of one GenerateResponse call |
| `CacheRace.ReachedIsWellKeyed` | internal/harness/cache.go:152-160 | every reachable table keys harness rows by their own columns and production rows by ids |
| `CacheRace.RacingFreshCanHit` | internal/harness/cache.go:67-81 | an instance: two fresh callers of whom the second is given the first one's row |
| `FreshRace.OneOwnerPerRow` | internal/harness/cache.go:75-113 | every stored harness row was stored by exactly one caller, which got it as new |
| `FreshRace.ReusedExactlyIf` | internal/harness/cache.go:220-230 | a caller is given somebody else's row exactly if another caller got the row under its key as new |
| `FreshRace.RacingFreshReusesExactlyIf` | internal/harness/cache.go:67-113 | among any racing callers a fresh one is given an earlier row exactly if the other bundle spelling had its repetition when it resolved it, or another caller with the same inputs and repetition stored between its resolving and its return |
| `FreshRace.LoneFreshMisses` | internal/harness/cache.go:67-113 | with bundle hashes never empty, a fresh caller misses if no other caller with its inputs is under way when it resolves and none arrives meanwhile |
| `FreshRace.RowIsOwnInputs` | internal/harness/cache.go:75-113 | the row a caller is given was generated from its own inputs at its own repetition |
| `FreshRace.RowIsOwnersAnswer` | internal/harness/cache.go:60-113 | and records an answer that was given, in the run, to a caller with the same inputs and repetition, the row's owner |
| `StrictSchema.StrictWalk` | internal/schema/schema.go:256-279 | the walk leaves a tree related node by node to its input |
| `StrictSchema.RequireAllProperties` | internal/schema/schema.go:283-307 | the old string entries come first, each once, then exactly the missing property names |
| `StrictSchema.OutputIsClosed` | internal/gateway/fake.go:190-231 | the output always passes `walkStrict` |
| `StrictSchema.OutputIsCompleteIff` | internal/gateway/fake.go:240-271 | the output passes `walkRequired` exactly if the input meets a condition on its properties maps |
| `StrictPaths.ForbidsExactlyIf` | internal/gateway/fake.go:190-230 | walkStrict finds nothing exactly if every object node, under any keys and indices, forbids additional properties |
| `StrictPaths.RequiresExactlyIf` | internal/gateway/fake.go:239-271 | walkRequired finds nothing exactly if every object node anywhere names all its properties as required |
| `StrictSchema.PlainSchemaPasses` | internal/gateway/fake.go:162-271 | if no properties map looks like an object node the output passes both tests |
| `StrictSchema.SecondWalkIsIdentityIff` | internal/schema/schema.go:240-307 | walking again changes nothing exactly if the input met the condition |
| `StrictSchema.TwoWalksPass` | internal/schema/schema.go:240-307 | two walks make every schema pass |
| `StrictSchema.KeepsRequired` | internal/schema/schema.go:289-298 | no string entry of a required list is lost |
| `StrictSchema.TrapFails` | internal/schema/schema.go:256-307 | a schema whose output `walkRequired` refuses |
| `BalancedObject.FirstBalancedObject` | internal/schema/parse.go:49-89 | the scanner returns the shortest balanced text from the first opening brace, or nothing if that brace is never balanced |
| `BalancedObject.SliceUnique` | internal/grading/absolute.go:570-610 | there is at most one such text |
| `BalancedObject.SucceedsIff` | internal/schema/parse.go:49-89 | it succeeds exactly if the first opening brace outside a string is balanced later |
| `BalancedObject.ResultIsComplete` | internal/schema/parse.go:49-89 | scanning a result again returns all of it |
| `BalancedObject.EmbeddedObject` | internal/schema/parse.go:49-89 | a harmless prefix and any suffix do not change a successful result |
| `BalancedObject.CrossesQuoted` | internal/schema/parse.go:55-86 | the scanner crosses any quoted string without a change of depth |
| `BalancedObject.ScannerAgreesWithReader` | internal/schema/parse.go:49-89 | whenever the JSON reader reads an object, however laid out and escaped, the scanner cuts out exactly the text it was read from |
| `BalancedObject.EncodedObjectIsComplete` | internal/schema/parse.go:49-89 | it returns the whole of any encoded object |
| `BalancedObject.LaterObjectIsMissed` | internal/schema/parse.go:49-89 | one unclosed brace hides every object after it |
| `LenientParser.StripFences` | internal/schema/parse.go:28-45 | the loop ends, each turn shortening the text, with the stripped text |
| `LenientParser.Unwrap` | internal/schema/parse.go:28-45 | each turn shortens the text by at least four |
| `LenientParser.StripSettles` | internal/schema/parse.go:28-45 | the result holds no two disjoint triple backticks and no outer white space |
| `LenientParser.StripIdempotent` | internal/schema/parse.go:28-45 | stripping twice is stripping once |
| `LenientParser.FencedObjectIsExtracted` | internal/schema/parse.go:12-45 | a complete object between fences, with or without the json tag, is extracted exactly, after any harmless preamble and before any text |
| `LenientParser.ParseObject` | internal/schema/parse.go:14-21 | cutting out and decoding, on which the typed parsers of `Replies` and `AbsoluteGrade` stand, compute the specified tree |
| `LenientParser.FencedTextIsParsed` | internal/schema/parse.go:12-45 | any text of a JSON object without a fence of its own, between fences and whatever surrounds them, is parsed to that object |
| `LenientParser.ParsedIsObject` | internal/grading/absolute.go:86-89 | what is parsed is always an object |
| `LenientParser.FencedTreeIsParsed` | internal/schema/parse.go:12-26 | the canonical text of an object, fenced, is parsed back to the object |
| `StoredView.ParsesExactlyIf` | internal/schema/parse.go:12-45 | a text that is read as a JSON object is parsed to it exactly if it does not hold two fences, and otherwise not parsed at all |
| `StoredView.ReadExactlyIf` | internal/schema/parse.go:12-26 | for every type and check: the text of what decodes to a value is parsed to that value exactly if it passes the check and the text does not hold two fences |
| `StoredView.ReadBackExactlyIf` | internal/harness/publish.go:374-380 | the JSON text of a stored view is read back to the same view exactly if its six required texts are there and it does not hold two fences |
| `StoredView.JudgeReadBackExactlyIf` | internal/harness/downstream.go:475-477 | the same of a stored judge and its five required texts |
| `StoredView.PairwiseReadExactlyIf` | internal/grading/pairwise.go:137 | the text of a comparison is parsed to it exactly if it does not hold two fences |
| `StoredView.CoverageReadExactlyIf` | internal/grading/coverage.go:50 | the text of a coverage table is parsed to its rows exactly if it does not hold two fences |
| `StoredView.FencedViewIsRead` | internal/schema/parse.go:12-45 | a view's text between fences is read to the view whatever surrounds it |
| `EscapedTicks.ValueEscaped` | internal/schema/parse.go:18-21 | with every backtick replaced by its escape, JSON text is read to the same tree and leaves the same rest |
| `StoredView.EveryViewHasAReply` | internal/council/run.go:453-458 | every view that has its texts is read from some reply, even one whose own JSON text is not |
| `StoredView.FencesAreStored` | internal/council/run.go:454-458 | a view one of whose texts holds two fences is stored with two fences |
| `StoredView.StoredButLost` | internal/council/run.go:453-458 | such a view is accepted from a reply and not read from what is then stored for it |
| `StoredView.LostViewIsLost` | internal/council/run.go:453-458 | a view with six backticks in one text is accepted, stored and lost |
| `StructText.DocRoundTrip` | internal/council/run.go:456-457 | reading what is written for a struct, members in the order of their declaration, gives its tree and stops where the text does |
| `Replies.ViewRoundTrip` | internal/schema/schema.go:8-23 | decoding what a view is marshalled to gives the view back, empty fields left out included |
| `Replies.JudgeRoundTrip` | internal/schema/schema.go:26-41 | decoding what a judge is marshalled to gives the judge back, empty fields and an empty list of roles left out included |
| `Replies.PairwiseRoundTrip` | internal/schema/schema.go:64-69 | decoding what a comparison is marshalled to gives it back |
| `Replies.CoverageRoundTrip` | internal/schema/schema.go:72-81 | decoding the tree of a coverage table gives its rows back |
| `ReplyForms.DangerExactlyIf` | internal/schema/schema.go:8-11 | which objects decode to a danger flag |
| `ReplyForms.ViewExactlyIf` | internal/schema/schema.go:14-23 | which objects decode to a view: texts or nothing under its names, and a danger |
| `ReplyForms.JudgeExactlyIf` | internal/schema/schema.go:26-41 | which objects decode to a judge |
| `ReplyForms.PairwiseExactlyIf` | internal/schema/schema.go:64-69 | which objects decode to a comparison |
| `ReplyForms.RowExactlyIf` | internal/schema/schema.go:72-81 | which objects decode to a coverage row |
| `ReplyForms.CoverageExactlyIf` | internal/schema/schema.go:72-81 | which objects decode to a coverage table |
| `ReplyForms.NextExactlyIf` | internal/schema/schema.go:35-38 | which objects decode to the next steps of a judge |
| `ReplyForms.NoDanger` | internal/schema/schema.go:8-11 | a null, and an object without members, is no danger |
| `ReplyForms.NoSteps` | internal/schema/schema.go:35-38 | and no next steps |
| `ReplyForms.EmptyRow` | internal/schema/schema.go:72-81 | and an empty coverage row |
| `Decode.LettersFold` | internal/schema/parse.go:17-20 | capital letters of a field name count as small ones |
| `Decode.OthersFoldToThemselves` | internal/schema/parse.go:17-20 | and so do two letters outside ASCII; every other character counts as itself |
| `JsonQuote.QuoteJSONString` | internal/store/request_progress.go:183-202 | the buffer loop computes the quoted text |
| `JsonQuote.JsonStringArray` | internal/store/request_progress.go:168-180 | the buffer loop computes the array text |
| `JsonQuote.QuoteRoundTrip` | internal/store/request_progress.go:183-202 | unescaping gives back every string |
| `JsonQuote.QuoteIsJsonIffClean` | internal/store/request_progress.go:183-202 | the text meets section 7 of RFC 8259 exactly if the string has no control characters but newline, return and tab |
| `JsonQuote.StringArrayRoundTrip` | internal/store/request_progress.go:168-180 | reading the array text gives the strings back |
| `JsonQuote.StringArrayInjective` | internal/store/request_progress.go:168-180 | different lists are written differently |
| `Packs.Store.Newest` | internal/store/packs.go:53-80 | the newest row of a status by creation time and id |
| `Packs.NothingIsNewer` | internal/store/packs.go:53-80 | no row of the status was created later, or at the same time with a later id |
| `Packs.Store.PublishAtomic` | internal/store/publish_tx.go:70-135 | all or nothing: every active pack demoted, every previous one retired, the new one active with the seats, hash, notes and run of the seed and the time of the publish, all bundles and baselines upserted and the forced marker set, or every table unchanged; the reported pack is the active one |
| `Packs.Store.WriteBundles` | internal/store/publish_tx.go:116-120 | the loop of bundle upserts computes the specified table or fails |
| `Packs.Store.WriteBaselines` | internal/store/publish_tx.go:121-125 | the loop of baseline upserts computes the specified table or fails |
| `PublishRows.UpsertBundle` | internal/store/publish_tx.go:137-193 | a stored key keeps its row's id and every other row is untouched; a new key gets the seed's id, which must be unused |
| `PublishRows.UpsertBundleIs` | internal/store/publish_tx.go:137-193 | which columns of a stored bundle are replaced and which kept, what a new one starts with, and when an upsert is refused |
| `PublishRows.BundleHoldsCase` | internal/harness/publish.go:344-364 | after a publish the natural bundle of a case holds its views and hash and names the pack |
| `PublishRows.UpsertBaseline` | internal/store/publish_tx.go:195-222 | one slot names the seed's bundle and response, every other is untouched |
| `PublishRows.BaselinesNameResponses` | internal/harness/publish.go:237-305 | after a publish a seat has a baseline for a case exactly if it has a usable response or had one, and it names that response, the judge's also the bundle |
| `PublishRows.JudgeNamesStoredBundleExactlyIf` | internal/harness/publish.go:273-300 | after a publish the judge baseline of a case names a stored bundle exactly if the case's natural bundle was not stored before |
| `PublishRows.SecondPublishDangles` | internal/harness/sentinel.go:318-328 | publishing again over the same cases leaves every judge baseline naming no bundle |
| `PublishRows.OneCaseDangles` | internal/harness/publish.go:273-300 | two publishes of one case into empty tables: the bundle keeps its first id, and the second judge baseline names the second |
| `Packs.Store.Rollback` | internal/pack/pack.go:286-311 | the newest active and the newest previous pack trade places; with a failed write nothing changes, unless undoing fails too |
| `Packs.PublishLeavesOneActive` | internal/store/publish_tx.go:72-112 | from any number of active packs exactly the new one is active and the old ones are previous |
| `Packs.RollbackAfterPublish` | internal/pack/pack.go:251-311 | the prior pack is active again, and nothing else differs but the kept new pack and the retired older one |
| `Packs.RollbackTwice` | internal/pack/pack.go:286-311 | two rollbacks that succeed are the identity |
| `Packs.RollbackKeepsSingleExactlyIf` | internal/pack/pack.go:299-305 | a rollback leaves a single active pack exactly unless the promotion and its compensation both fail, and then none |
| `Packs.SingleUnlessStuck` | internal/pack/pack.go:251-311 | over every sequence of publishes and rollbacks, failing writes included, one pack is active and at most one previous exactly unless a rollback was left stuck |
| `Packs.EveryRunKeeps` | internal/pack/pack.go:251-311 | over every such sequence no pack is lost or rewritten and retired packs stay retired |
| `Packs.PackIsItsSeed` | internal/pack/pack.go:251-311 | over every such sequence a pack has, at any later point, what it was published with and the time of that publish |
| `Packs.Store.InsertActive` | internal/pack/pack.go:154-206 | a new active row, completed by its two updates, with nothing demoted |
| `Packs.InitKeepsSingleExactlyIf` | internal/pack/pack.go:154-186 | Init leaves a single active pack exactly if there was none |
| `Pairwise.Service.CompareOne` | internal/grading/pairwise.go:63-124 | the sequence of calls and inserts writes and returns what the specification says |
| `Pairwise.PairwiseCall` | internal/grading/pairwise.go:128-156 | at most two chats, and only answers within the vocabulary |
| `Pairwise.PairwiseCallIs` | internal/grading/pairwise.go:128-156 | a first answer within the vocabulary is taken; after any other that is no failure the retry's is, if it is within the vocabulary |
| `Pairwise.RowsRecord` | internal/grading/pairwise.go:63-124 | each row names the two responses, how they were shown and the answer to that display, and the first gives the side its letter names |
| `Pairwise.SwapMirrors` | internal/grading/pairwise.go:63-124 | swapping the responses and the coin mirrors every row and the verdict |
| `Pairwise.OneFinalRow` | internal/grading/pairwise.go:63-124 | a success writes one final row, the one returned, never unable, in at most four chats; a failure writes none |
| `Pairwise.ReversalNeedsAgreement` | internal/grading/pairwise.go:100-108 | two rows show the pair in both orders after a tie, an unable or a close answer, and a side wins exactly if the two stored letters are the two different ones that name it |
| `Pairwise.CoinDoesNotMatter` | internal/grading/pairwise.go:63-124 | a grader that judges content gets its verdict whatever the coin |
| `Pairwise.NamedResponseWins` | internal/grading/pairwise.go:180-195 | a response named wherever it is shown wins, whatever the coin and the margins |
| `Pairwise.PositionDecidesNothing` | internal/grading/pairwise.go:63-124 | an unsure grader that names a position decides nothing |
| `Pairwise.BothMustAgree` | internal/grading/pairwise.go:37-60 | a side wins over two graders exactly if the final rows of both give it the win; they agree exactly if their final sides are equal, and the result is then that side; and the result mirrors |
| `Pairwise.BothNameLeft` | internal/grading/pairwise.go:37-60 | a response that both graders name wherever it is shown wins, whatever the coins |
| `Rotation.RotateCompose` | internal/harness/sentinel.go:546-556 | rotations compose by adding offsets of any sign |
| `Rotation.RotatePermutes` | internal/harness/sentinel.go:546-556 | a rotation is a permutation |
| `Rotation.RotateAt` | internal/harness/sentinel.go:546-556 | where every element goes, the truncating remainder included |
| `Rotation.Recheck` | internal/grading/calibration.go:57-75 | when a week's selection is refused, its length, and the item at each of its positions |
| `Rotation.GradedExactlyIf` | internal/grading/calibration.go:69-75 | of items without duplicates a week grades exactly those whose turn it is |
| `Rotation.EveryItemItsTurn` | internal/grading/calibration.go:69-75 | over as many consecutive week numbers as there are items, every item of a list without duplicates is in the selection equally often (ISO week numbers start again each year) |
| `Sentinel.SelectSentinelCases` | internal/harness/sentinel.go:108-186 | exactly max(2, count) cases, a safety and a control family first, then each time the first hard family from the week's on that is not picked yet, repetitions only when those run out; when it is refused |
| `Sentinel.SelectKeepsOrder` | internal/harness/sentinel.go:108-140 | the lists of tagged families keep the order of the family list and leave none out |
| `Sentinel.SameFamilyExactlyIf` | internal/harness/sentinel.go:146-152 | the first two picks are one family exactly if it is the only control family |
| `AbsoluteGrade.AcceptedIsSound` | internal/grading/absolute.go:80-162 | from the reply text on, whatever shape was tried, an accepted grade has exactly the five criteria, each 0 to 4, no blank evidence, and a weakness that says something if it has one |
| `AbsoluteGrade.NotesAreKept` | internal/grading/absolute.go:90-106 | a payload is accepted exactly if a shape tried decodes, and notes under a known key that is there are not dropped |
| `AbsoluteGrade.HarvestRootPassages` | internal/grading/absolute.go:250-271 | the loop over root-level criteria computes the specified evidence |
| `AbsoluteGrade.HarvestIsEvidence` | internal/grading/absolute.go:250-271 | evidence collected from root-level criteria is never blank |
| `AbsoluteGrade.DecodePassages` | internal/grading/absolute.go:397-445 | every accepted form of passages holds no blank text |
| `AbsoluteGrade.FlagsAreTypedExactlyIf` | internal/grading/absolute.go:493-545 | accepted flags all have a type exactly unless they came as a list of names with an empty or null one |
| `AbsoluteGrade.EmptyFlagIsAccepted` | internal/grading/absolute.go:523-545 | the list of an x and an empty name is accepted with a flag that has no type |
| `AbsoluteGrade.RootScoresAreWrittenExactlyIf` | internal/grading/absolute.go:214-244 | scores read from the root are numbers of the payload exactly if none of the five is null |
| `GradeForms.GradeRoundTrip` | internal/grading/absolute.go:80-162 | a sound grade written in the form of the schema is read back to itself, in every order of walking its scores |
| `GradeForms.AcceptedNotes` | internal/grading/absolute.go:459-487 | an accepted grade's notes are the three lists written under their names, or the one text or list that is written instead, and none without a notes key |
| `GradeForms.FirstShapeDecides` | internal/grading/absolute.go:103-109 | the first shape that decodes decides |
| `GradeForms.GradeIsMadeOf` | internal/grading/absolute.go:114-162 | where each part of a decoded grade comes from |
| `GradeForms.TextMapIsRead` | internal/grading/absolute.go:405-412 | a map of passages is read as it stands exactly if no passage or text in it is blank |
| `GradeForms.LinesAreRead` | internal/grading/absolute.go:413-427 | a list of passages is read, each as its own assessment, exactly if none is blank |
| `GradeForms.EntriesAreRead` | internal/grading/absolute.go:428-444 | a list of entries is read exactly if no part is blank, every passage with the assessment of the last entry that gives it |
| `GradeForms.PassagesAreRead` | internal/grading/absolute.go:397-445 | which of the three forms a value is read as, and which values are refused |
| `GradeForms.EntryAliases` | internal/grading/absolute.go:437-438 | which of an entry's names count, and in which order |
| `GradeForms.FlagAliases` | internal/grading/absolute.go:509-522 | the same of a flag |
| `GradeForms.FlagObjectsAreRead` | internal/grading/absolute.go:509-532 | flag objects are read one by one, and refused exactly if one has no type |
| `GradeForms.FlagNamesAreRead` | internal/grading/absolute.go:533-544 | a list of names gives flags of these types |
| `GradeForms.WeaknessIsRead` | internal/grading/absolute.go:146-157 | the weakness under its own key if both its parts are there, otherwise the variant keys' text as both |
| `GradeForms.VariantIsRead` | internal/grading/absolute.go:168-207 | which variant key's text that is |
| `GradeForms.RootEvidenceIsHarvested` | internal/grading/absolute.go:250-271 | criteria at the root add their passages in their order, a later one replacing an earlier one |
| `GradeForms.RootScoresExactlyIf` | internal/grading/absolute.go:214-244 | criteria at the root are read exactly if each of the five is there with a score from 0 to 4, and with these scores |
| `ScoreContainer.CollectScores` | internal/grading/absolute.go:336-346 | the loop over a score container computes the specified map or refuses |
| `ScoreContainer.DecidersGiveScores` | internal/grading/absolute.go:290-330 | the map read holds exactly the scores of the entries after which no other stands for the same criterion |
| `ScoreContainer.AcceptedScoresAreKept` | internal/grading/absolute.go:279-346 | a score container has as many entries as the map it is read into, five for an accepted one, exactly if no two stand for the same criterion, and then every score is kept |
| `ScoreContainer.AcceptedExactlyIf` | internal/grading/absolute.go:279-346 | a map of scores is accepted in every order of walking it exactly if every key stands for a criterion, every score is 0 to 4 and every criterion is there |
| `ScoreContainer.WalkMattersExactlyIf` | internal/grading/absolute.go:333-346 | an accepted map of scores is read alike in every order of walking it exactly if keys for the same criterion carry the same score |
| `ScoreContainer.SixthKeyDependsOnWalk` | internal/grading/absolute.go:333-346 | five good scores and a sixth under "role" are accepted, with either score of role_execution depending on the walk |
| `ScoreContainer.ScoresAreWrittenExactlyIf` | internal/grading/absolute.go:279-331 | every accepted score is a number of the payload if no flat score is null, and with five entries only then |
| `ScoreContainer.WrittenForEveryWalkExactlyIf` | internal/grading/absolute.go:279-346 | of a map accepted in every order of walking it, with any number of entries, every score is a number of the payload exactly if beside every null a 0 is written for its criterion |
| `ScoreContainer.NullsCountAsZero` | internal/grading/absolute.go:283-288 | five nulls are accepted as five zeros |
| `ScoreContainer.FiveNulls` | internal/grading/absolute.go:283-288 | such a payload |
| `ScoreContainer.CriteriaStandForThemselves` | internal/grading/absolute.go:353-358 | every criterion's own name is read as itself |
| `ScoreContainer.TruncationIsRead` | internal/grading/absolute.go:348-362 | a truncated name is read as the criterion it abbreviates |
| `ScoreContainer.RoleIsRoleExecution` | internal/grading/absolute.go:352-373 | a name that is read as a criterion without being its own name |
| `ScoreForms.StandsForExactlyIf` | internal/grading/absolute.go:352-373 | a name stands for a criterion exactly if, lowered and with underscores, it is the criterion's own or else holds one of its words and none of an earlier criterion's |
| `ScoreForms.LettersAreLowered` | internal/grading/absolute.go:353 | capital letters of a name become small ones |
| `ScoreForms.OthersStay` | internal/grading/absolute.go:353 | spaces become underscores, and every other character stays but two letters outside ASCII with an ASCII lower case |
| `ScoreForms.ScoresRoundTrip` | internal/grading/absolute.go:279-346 | the five scores as a map of numbers are read back, in every order of walking it |
| `ScoreForms.WrappedRoundTrip` | internal/grading/absolute.go:289-308 | so are the five as a map of objects with scores |
| `ScoreForms.ListRoundTrip` | internal/grading/absolute.go:309-331 | so are the five as a list of items with names and scores, in any order |
| `ScoreForms.ListExactlyIf` | internal/grading/absolute.go:309-331 | a list is read exactly if each item has a name and a score of the right kinds, as the map its entries collect to |
| `ScoreForms.IntIsRead` | internal/grading/absolute.go:283-288 | an int is read back from its decimal text exactly if it has 64 bits |

## Left out

- CouncilProgress.NoSeatsHang: the program's seat list is fixed, so the hang it shows cannot occur there.
- CouncilInvariant.NextKeepsInv: finishJudge's row reads succeed along the runs; the early return without done is modelled in the sequential FinishJudge only.
- Json.ValueRoundTrip: encoding/json's limit of 10,000 nested values is not modelled.
- StoredView.ReadExactlyIf: of a key that a reply repeats only the last value counts; encoding/json also decodes the earlier ones, and of a nested struct given twice, in whatever capitalisation, keeps what only the first one sets.
- Replies.CoverageRoundTrip: a missing list and an empty one are the same here.
- StrictSchema.StrictWalk: the source rewrites the decoded maps in place; the walk here returns a new tree, so sharing between parts of a schema is not modelled.
- ResponseCache.Runner.GenerateResponse: the matching of model prefixes and the parsed form of the content are part of the reply; what is parsed from a text is in Replies and StoredView.
- PublishRows.UpsertBaseline: the table is kept by pack, seat and case, one row each; other writers of the table are not modelled.
- The registry entry a run is registered under: a cancel may or may not reach the run, and both are allowed.
- Gateway client, prompts, HTTP, reports, spend, configuration, weekly and compare orchestration: plumbing around this core.
