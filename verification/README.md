# LetheBot: verified models of its stateful core

LetheBot is a chat bot for QQ groups and private chats. This project models the parts of it whose correctness
spans several functions or whole runs, in Dafny, and proves what those parts are for. Everything is checked with

    dafny verify dfyconfig.toml

Conventions used throughout:

- SQL tables are maps or sequences, and a transaction is one atomic step over them. A class holds the tables or
  the fields an object updates; each of its methods is proved equal to a specification function over the object's
  state, and the laws are lemmas about runs of that function.
- Time is integer milliseconds. Fresh random values (ULIDs, handles, session digests, echoes) are parameters.
  Where uniqueness matters the model either checks it, as the primary key does, or a run is required to draw new
  values.
- A text is a sequence of Dafny's `char`, Unicode scalar values; the canonical encoding works on 16-bit code units.
- Redaction and `localeCompare` are function parameters, so the laws hold for every choice of them.

| file | component |
|---|---|
| Text, Sequences | string helpers; searching, counting, filtering and stable sorting |
| Json, Canonical | the JSON printer (sections 5 and 7 of RFC 8259) and the tagged encoding bound to a decision |
| CqEntities, CqCodec, CqMeaning | the OneBot 11 string message format, its array form, and what both mean |
| References, ReferenceLaws, PromptCost, PromptSize, MemoryRanking, ContextBudget, ContextBudgetLaws | context selection under the token cap |
| DelayedAttention, RateLimit, RetryContract, Recheck | deferred group questions: the decision, its rate limit, what a failed attempt leaves, and the job that answers them |
| Actions, Cooldown, Authorization, Replies, ReplySpacing, JobKeys | action plans, cooldowns, evaluator authority, replies, job keys |
| HandleRegistry, GovernanceSessions | opaque resource handles under HTTP sessions |
| WsSession | the reconnecting WebSocket session |
| Admission | the life of an admitted event |

Results that differ from what the code or its documents suggest:

- The array form decodes entities in texts that were never escaped, so the string form and the array form of one
  message agree exactly when no text holds an entity (`CqCodec.StringAndArrayAgree`).
- The limit of two responses in ten minutes fails exactly when a decision responds into a crowd of stored responses
  one of which is dated later (`RateLimit.LimitHoldsExactly`); so it holds while decision times do not step back,
  and a run in which they do breaks it (`RateLimit.ClockStepsBack`).
- An attempt that fails under its lease moves its job to the time of the failure. Unless that is the very millisecond
  at which the question was due, the next attempt finds the contract between candidate and job broken: it decides
  nothing and reads no earlier decision back (`RetryContract.BrokenExactlyAfterFailure`,
  `RetryContract.RefusedAfterFailure`, and a run in `RetryContract.RetryRefused`). Retrying works after a lost lease.
- A summary memory refused for lack of room can fit beside the final selection, because a shorter profile accepted
  later takes the section it would have opened (`ContextBudgetLaws.SummaryRefusalNotJustified`). Two summaries per
  scope are safe and three are not (`ContextBudgetLaws.RefusalBound`).
- With the longest configured lifetime a clock that steps back a millisecond makes the registry refuse a session's
  handles, because the session seems to last longer than an hour (`GovernanceSessions.ClockStepsBack`); the input of
  an authenticated request is refused exactly when the clock has stepped back since the login by more than the
  configured lifetime leaves (`GovernanceSessions.LifetimeFailsExactly`).
- When the clock steps back while a handler runs, the constraints of the admission table refuse the closing update and
  the event stays in processing (`Admission.ClosesExactly`, `Admission.ClockStepsBack`).
- No cooldown governs a clarifying question, so the evaluator can let unprompted ones through at any rate
  (`ReplySpacing.QuestionsAreNotSpaced`); the spacing of 60 seconds holds for all other actions that send something
  (`ReplySpacing.SpacingHoldsExactly`).

Each handler of a class is proved equal to a step function; the table lists those with loops or several stages, and
the laws about the step functions.

## Model

| member | source | states |
|---|---|---|
| CqEntities.SequentialIsSimultaneous | src/gateway/onebot-adapter.ts:512-518 | on every string the four global replacements in sequence equal one left-to-right scan that decodes all four entities at once |
| CqEntities.DecodeUndoesEscape | src/gateway/onebot-adapter.ts:512-518 | decoding undoes the OneBot 11 escape, inside codes (comma included) and in plain text |
| CqEntities.DecodeShrinks | src/gateway/onebot-adapter.ts:512-518 | decoding changes a string exactly when it contains an entity, and the loss survives trimming |
| CqCodec.CodeAtComplete | src/gateway/onebot-adapter.ts:415 | greedy matching finds the only match of the code pattern at a place |
| CqCodec.CodeAtSound | src/gateway/onebot-adapter.ts:415 | whatever the matcher accepts is a word of the pattern `[CQ:type,params]` with the reported type and parameters |
| CqCodec.TokensReassemble | src/gateway/onebot-adapter.ts:412-434 | for every raw string the text slices and matched codes concatenate back to it |
| CqCodec.ParseCqParams | src/gateway/onebot-adapter.ts:491-510 | the loop over the comma-separated pairs computes the parameter map: the last value of a key wins, and keyless pairs and the key `__proto__`, which a plain object does not take, are skipped |
| CqCodec.ParseCqString | src/gateway/onebot-adapter.ts:412-434 | the scanning loop with its cursor computes the trimmed decoded text and the structured parts in order |
| CqCodec.ParseSegmentArray | src/gateway/onebot-adapter.ts:388-410 | the loop over the segments computes the meaning of the array form |
| CqCodec.ParamsOfRendering | src/gateway/onebot-adapter.ts:491-510 | parsing the rendered parameters of a segment gives its data record back, but for the key `__proto__`, from which no structured part is read |
| CqCodec.TokensOfRendering | src/gateway/onebot-adapter.ts:412-434 | scanning a rendered segment list finds exactly its codes, with adjacent texts merged into one slice |
| CqCodec.StringRoundTrip | src/gateway/onebot-adapter.ts:412-488 | rendering any segment list with string data and parsing it gives the segments' own texts, mentions, media and reply |
| CqCodec.StringAndArrayAgree | src/gateway/onebot-adapter.ts:388-434 | both forms parse alike if and only if no text segment holds an entity; mentions, media and reply always agree |
| CqMeaning.StringPartsMean | src/gateway/onebot-adapter.ts:412-488 | the mentions of any string are, in order, the accepted `qq` values of its `at` codes, the reply and the quote are the last accepted `id` of its `reply` codes, and each image, record, video and file code gives one medium, with its URL when redaction leaves that unchanged |
| CqMeaning.ArrayPartsMean | src/gateway/onebot-adapter.ts:388-410 | the same for the segments of the array form, and its text is the trimmed concatenation of their decoded texts |
| CqMeaning.IdentifiersAreQq | src/gateway/onebot-adapter.ts:518-565 | every mention and reply that is read starts with one `qq-`, followed by digits, `all` or an internal bot message number |
| CqMeaning.RecordHoldsLast | src/gateway/onebot-adapter.ts:388-410 | in a segment's record the last value given for a name counts |
| Json.PrintInjective | src/actions/action-repository.ts:688-706 | a printed JSON text determines its value, also with other text after it |
| Json.PrintedAsJson | src/actions/action-repository.ts:688-706 | literals, empty brackets and the digits of an escape read as JSON |
| Canonical.SortIsCanonical | src/actions/action-repository.ts:907-912 | sorting by key forgets exactly the order of the properties |
| Canonical.NodeInjective | src/actions/action-repository.ts:878-917 | two encodable values have the same canonical node exactly when they mean the same tree |
| Canonical.CanonicalTextDecides | src/actions/action-repository.ts:878-917 | the canonical text is injective and free of property order; undefined, null, -0, dates, strings and numbers are kept apart |
| Canonical.ExecutionTextDecides | src/actions/action-repository.ts:679-707 | one text is bound to one decision under one pair of evaluator and turn authorities |
| References.NumberMessages | src/context/builder.ts:1099-1123 | the pass with a table of speakers computes the numbering by first appearance |
| References.MaterializeReferenceContext | src/context/builder.ts:1090-1164 | numbering, current reference, reply reference and participants equal their specification |
| References.MaterializeParticipants | src/context/builder.ts:1166-1237 | the loop keeps the first message of each human speaker, in order |
| References.RefsFollowKeys | src/context/builder.ts:1101-1123 | two kept messages share a speaker reference exactly when they share an identity key, and a message reference only with themselves |
| References.RefsHaveNoGaps | src/context/builder.ts:1099-1112 | every number up to the count of distinct keys is in use |
| References.RefsInOrderOfAppearance | src/context/builder.ts:1099-1112 | a new key takes the next number, and a known key keeps one settled by the messages up to it |
| References.GroupParticipants | src/context/builder.ts:1187-1236 | a group context has exactly one participant per distinct human speaker, and no others |
| ReferenceLaws.NumberedExactly | src/context/builder.ts:1099-1123 | every kept message field by field: its number, its speaker's name and reference, and whether it is current |
| ReferenceLaws.CurrentExactly | src/context/builder.ts:1124-1125 | the current reference is that of the first message asked for, and missing exactly when none is kept |
| ReferenceLaws.ReplyExactly | src/context/builder.ts:1127-1148 | a reply is reported for a current message, and resolved exactly when its target was resolved and is kept, with the target's reference, speaker and role |
| ReferenceLaws.ParticipantsExactly | src/context/builder.ts:1187-1236 | the participants of a group are its human speakers in the order of their first words, each described from those, from its identity, and from the first supplied participant who is the sender |
| ReferenceLaws.ParticipantsWithoutMessages | src/context/builder.ts:1174-1185 | a private context has no participants, and a group without messages the supplied ones, numbered from one, if it never had messages |
| PromptCost.CostMonotoneInText | src/context/builder.ts:1449-1552 | shortening message texts never raises the recomputed cost, through numbering and all layers |
| PromptCost.MemoryLayerGrows | src/context/builder.ts:1603-1629 | the memory layer never renders shorter with more memories |
| PromptCost.MemoryLayerGrowsWith | src/context/builder.ts:1603-1629 | listing others first can save a memory at most its own profile section |
| PromptSize.CostIsExact | src/context/builder.ts:1449-1552 | the cost and each layer of it, in numbers of code units of the messages, memories, fields, participants and references shown |
| PromptSize.OneMoreMessage | src/context/builder.ts:1460-1462 | one more message raises the message layer by its own rendering |
| PromptSize.CostCoversSubstance | src/context/builder.ts:1449-1552 | twice the cost is at least 600 plus the code units of all texts, names, titles, contents and fields shown |
| MemoryRanking.ComparatorsConsistent | src/context/builder.ts:1266-1340 | both comparators are total preorders in which records tie only when their ids do under `localeCompare` |
| MemoryRanking.ProfileIsBest | src/context/builder.ts:1266-1278 | the priority profile of a scope exists if any does; it is the most confident, then the most important, then the latest, then the first by id |
| MemoryRanking.OrderedByCriteria | src/context/builder.ts:1291-1340 | the other memories are offered by nine criteria in turn, each the larger the earlier, then by id: what asked for them, full text, closeness, place in the full-text result, semantic score, not global, importance, creation, confidence |
| MemoryRanking.OrderDeterministic | src/context/builder.ts:1291-1340 | with distinct ids, none of which tie, the order does not depend on how the store lists the memories |
| ContextBudget.TruncateMessageToFit | src/context/builder.ts:1239-1264 | the binary search returns the longest fitting prefix plus marker for a monotone test, nothing only if the bare marker fails, and for any test something that fits |
| ContextBudget.FitsAtMonotone | src/context/builder.ts:888-894 | the tests passed for the current message and for the quote target are monotone in the prefix length |
| ContextBudget.FitsBeforeMonotone | src/context/builder.ts:952-959 | so is the test passed when the current message is shortened a second time |
| ContextBudget.ApplyCurrentStage | src/context/builder.ts:863-903 | the first stage with its errors, cut by binary search, equals the stage cut to the longest fit |
| ContextBudget.ApplyQuoteStage | src/context/builder.ts:905-975 | the second stage, with the retry that shortens the current message, likewise |
| ContextBudget.ApplyTokenBudget | src/context/builder.ts:810-1073 | the whole staged loop equals its specification on every input, errors included |
| ContextBudgetLaws.CurrentGivenUp | src/context/builder.ts:880-897 | the current message is given up exactly when neither it nor the bare marker in its place fits |
| ContextBudgetLaws.CutReads | src/context/builder.ts:1239-1264 | a cut keeps the first code units of the text and adds the marker; the smallest target is the bare marker |
| ContextBudgetLaws.CurrentKept | src/context/builder.ts:863-903 | the current message is kept whole if it fits, otherwise as its longest fitting prefix, which is reported; without any it is given up |
| ContextBudgetLaws.QuoteKept | src/context/builder.ts:905-975 | so is the quote target beside it; when not even its bare marker fits, it gets that and the current message is shortened to its longest prefix that fits before it, and without any both are given up |
| ContextBudgetLaws.OmissionsReported | src/context/builder.ts:1017-1061 | the messages and participants left out are counted in the reported filters |
| ContextBudgetLaws.BudgetHolds | src/context/builder.ts:863-1061 | every result is within 8000 tokens, its reported budget is the cost of what it returns, and the closing error never occurs |
| ContextBudgetLaws.PromptWithinCap | src/context/builder.ts:863-1061 | the texts, names, memories and fields of every returned prompt take at most 15400 code units together |
| ContextBudgetLaws.RequiredPresent | src/context/builder.ts:868-975 | a located current message and a located quote target are in the result, and the references point at them |
| ContextBudgetLaws.SoundSelection | src/context/builder.ts:863-1061 | the result is the reference context of the required messages and an unbroken suffix of the others, in the order of the window, with only required ones shortened; the newest one left out would exceed the cap beside the final selection |
| ContextBudgetLaws.MemoriesDisposed | src/context/builder.ts:977-1040 | with distinct ids every memory is either selected or rejected, once, and the counts add up |
| ContextBudgetLaws.RefusalStaysJustified | src/context/builder.ts:1016-1033 | a memory refused in the last pass exceeds the cap beside the final selection, up to the profile section it would have opened, and that only for a summary whose scope's section was empty after the first pass and is taken at the end |
| ContextBudgetLaws.TwoSummariesJustified | src/context/builder.ts:1016-1033 | with at most two summaries per scope among the input memories no refused memory fits beside the final selection |
| ContextBudgetLaws.RefusalBound | src/context/builder.ts:1016-1033 | the bound is exact: every refusal stays justified on all inputs with at most n summaries per scope if and only if n is at most two |
| ContextBudgetLaws.SummaryRefusalNotJustified | src/context/builder.ts:1016-1033 | a private conversation with a known user and three ranked summaries of theirs, one of which is refused in the last pass and fits beside the final selection |
| ContextBudgetLaws.BudgetIgnoresStoreOrder | src/context/builder.ts:810-1073 | with distinct ids, none of which tie, the whole result does not depend on the order in which the store lists the memories |
| DelayedAttention.DelayedAttentionService.DecideCandidate | src/attention/delayed-attention-service.ts:212-287 | one transaction: the checks in order, replay of an existing decision, then the decision and its suppressor |
| DelayedAttention.EnqueuedExactly | src/attention/delayed-attention-service.ts:147-203 | an event without a candidate gets one exactly when it is one received group question, neither from nor to the bot, under its only accepted receipt; the candidate, its times and its job are given field by field |
| DelayedAttention.DecidedExactly | src/attention/delayed-attention-service.ts:212-287 | who may make the first decision and when, and the rows it writes |
| DelayedAttention.SuppressorMeans | src/attention/delayed-attention-service.ts:423-503 | each of the four reasons and the response are characterised by the rows of the tables, with their counts; an answer given as evidence is the earliest |
| DelayedAttention.RunValid | src/attention/delayed-attention-service.ts:147-287 | candidates, decisions and suppressors stay consistent through every run, recorded failures of attempts included; each candidate keeps its job, but for the schedule |
| DelayedAttention.DecisionsInRuns | src/attention/delayed-attention-service.ts:226-287 | a response falls in [15000, 120000) ms after observation; a suppressed decision has exactly one suppressor and a response none |
| DelayedAttention.DecisionIsFinal | src/attention/delayed-attention-service.ts:226-229 | a candidate gets at most one decision, which no later step changes; deciding again writes nothing and reads it back exactly when the attempt names the job at a valid time and the job still stands at the due time |
| RateLimit.RecordLimited | src/attention/delayed-attention-service.ts:482-500 | one more decision keeps the limit of two per 600000 ms exactly when it is suppressed or no two stored responses, one of them dated later, span less than the window together with it |
| RateLimit.LimitHoldsExactly | src/attention/delayed-attention-service.ts:212-287 | in every run the limit holds for all groups and windows exactly when no step responds into such a crowd |
| RateLimit.RateLimit | src/attention/delayed-attention-service.ts:482-500 | with nondecreasing decision times no group gets more than two responses in any window of 600000 ms |
| RateLimit.ClockStepsBack | src/attention/delayed-attention-service.ts:482-500 | a run of ingress, enqueueing and decisions with three responses in one window, the clock having stepped back |
| RetryContract.ScheduleIsHistory | src/storage/job-repository.ts:384-408 | in every run the job of a stored candidate stands at the time of its last recorded failure, and at the due time as long as there is none |
| RetryContract.BrokenExactlyAfterFailure | src/attention/delayed-attention-service.ts:408-421 | in every run deciding fails for a broken job contract exactly when the attempt names a stored candidate with its own job at a valid time and the last recorded failure of that job was not at the due time |
| RetryContract.RefusedAfterFailure | src/attention/delayed-attention-service.ts:212-229 | from then on, until a failure is recorded at just the due time, no step decides the question and every attempt is refused without changing anything, even where a decision is stored |
| RetryContract.FailureDisplaces | src/workers/background.ts:321-332 | a failure recorded under the lease at any other time than the due time puts a stored candidate in that state |
| RetryContract.RetryRefused | src/workers/background.ts:321-332 | a run of ingress, enqueueing and a failure a millisecond after the due time, whose retry is refused; had the first attempt lost its lease, the retry would respond |
| RetryContract.EnqueueIsIdempotent | src/attention/delayed-attention-service.ts:147-156 | enqueueing an event again at any later time of a run writes nothing; it returns the stored candidate exactly when no failure has moved its job off the due time, and otherwise finds the contract broken |
| Recheck.RecheckHandler.HandleRecheckTask | src/application/background-runtime-service.ts:404-467 | one attempt, with a throw or a death at any step |
| Recheck.RecheckHandler.HandleConversationTurn | src/application/conversation-turn-service.ts:67-541 | the turn's writes step by step and its error path, for a stored source |
| Recheck.FreshStart | src/application/background-runtime-service.ts:570-641 | a fresh turn is allowed exactly when every earlier turn of the event failed or was aborted without a decision |
| Recheck.ReportIsEvidence | src/application/background-runtime-service.ts:570-641 | evidence is found exactly when a turn of the event is delivered under its decision or completed; reported is the newest delivered turn, as such, and otherwise the newest completed one |
| Recheck.AttemptWithoutTurn | src/application/background-runtime-service.ts:427-447 | an attempt that is refused or suppressed, or finds something left by an earlier one, changes nothing, and what it reports |
| Recheck.SuppressedIsNeverAnswered | src/application/background-runtime-service.ts:433-443 | in every run in which all attempts for an event are decided to suppress, its executor never starts and it gets no turn |
| Recheck.TurnLeaves | src/application/conversation-turn-service.ts:67-541 | whatever throws or dies, the turn's row, its decision, the executions and the ending are given by how far it got |
| Recheck.FreshAttemptReports | src/application/background-runtime-service.ts:449-466 | a fresh attempt reports its turn exactly when every step of it was carried out, and dies exactly when a step does |
| Recheck.FailureAllowsRetry | src/application/background-runtime-service.ts:570-641 | after a fresh attempt the next one may start afresh exactly when no turn was made or it failed before its decision |
| Recheck.RecoveryAllowsFreshStart | src/application/background-runtime-service.ts:570-641 | after recovery an event can be answered afresh exactly when no turn of it is decided or completed |
| Recheck.DecisionFreezes | src/application/background-runtime-service.ts:443-466 | once a turn carries a decision an attempt changes nothing: it only reports or throws |
| Recheck.AtMostOnce | src/application/background-runtime-service.ts:423-467 | over any attempts and recoveries, with a crash at any step, the executor starts at most once for a question |
| Recheck.DecisionIsTheLast | src/actions/action-repository.ts:253-255 | a linked decision stays linked and no later step starts the executor again |
| Recheck.FairWeatherAnswers | src/application/conversation-turn-service.ts:301-502 | an attempt that finds no evidence and meets no failure executes once and leaves a completed turn with its decision |
| Actions.EvaluationNeverLoosens | src/actions/social-evaluation.ts:9-83 | a passing evaluation keeps the target and yields constraints at least as tight as the proposal's and the evaluator's own; the cooldown key is the proposal's where it has one, else the evaluator's |
| Actions.EvaluationChanges | src/actions/social-evaluation.ts:9-83 | what of the action a passing evaluation changes, and that its limits are no tighter than the tighter of both sides |
| Actions.EvaluationFails | src/actions/social-evaluation.ts:9-83 | a passing evaluation cannot be applied exactly when it downgrades to nothing or from an action that was not proposed |
| Cooldown.ActionCooldownManager.Apply | src/actions/cooldown.ts:23-55 | the loop over the batch with its table equals the batch function |
| Cooldown.BatchesAreCalls | src/actions/cooldown.ts:23-55 | a run of batches is the run of its calls one by one |
| Cooldown.BlockedExactlyWhileRunning | src/actions/cooldown.ts:36-48 | an action is silenced exactly when an earlier one let through under its key is still running, whatever the order of times |
| Cooldown.ChargesAreSeparated | src/actions/cooldown.ts:36-48 | two actions let through under one key are at least the first one's cooldown apart |
| Cooldown.SilencedOrLetThrough | src/actions/cooldown.ts:23-55 | after any run an action that sends something is replaced by its silent form exactly while an earlier one let through under its key is less than that one's own cooldown back, and every other is let through unchanged |
| Authorization.SocialDecisionService.CreateDecision | src/actions/social-decision-service.ts:50-134 | plan, evaluation, cooldown and storing in sequence; storing looks up the turn, validates, checks the binding of the evaluation and replaces payloads by their guarded form |
| Authorization.AcceptedExactly | src/actions/action-repository.ts:609-661 | the validator accepts under an authorised action exactly that action or the silenced form a cooldown gives it |
| Authorization.EveryFormArises | src/actions/cooldown.ts:72-82 | each accepted silenced form is produced by some state of the cooldowns |
| Authorization.AcceptedIffWellFormed | src/actions/action-repository.ts:149-255 | for every cooldown state and time an evaluated decision passes validation exactly when the evaluator's result is well formed, and is then stored exactly when the evaluation is bound to its invocation |
| Authorization.ValidatedExactly | src/actions/action-repository.ts:490-661 | all that the validator demands of any decision, with evidence and without |
| Authorization.UnevaluatedStored | src/actions/social-decision-service.ts:80-96 | a decision without evaluation, or after the evaluator failed, is stored exactly when its turn exists; after a failure it is silent |
| Replies.EvaluatorAskedExactly | src/actions/social-decision-service.ts:136-141 | an evaluator is asked exactly when the signals want it or a group is answered unasked |
| Replies.PlainAnswer | src/actions/social-decision-service.ts:50-134 | where none is asked, a decision on a stored turn stores one action: the trimmed text as a full reply to the sender or a short one to the group, or its silent form while the group's cooldown runs; a private or prompted reply is never silenced |
| Replies.ApprovedAnswer | src/actions/social-decision-service.ts:50-134 | so it is when the evaluator approves the reply as it stands |
| Replies.RefusedIsSilent | src/actions/social-decision-service.ts:80-96 | when the evaluator fails or refuses, one silent action for the same conversation is stored, and no cooldown starts |
| Replies.RecordedWithAction | src/actions/social-decision-service.ts:80-134 | who is recorded to have decided, at what risk and confidence, with which reasons, suppressors and evidence |
| Authorization.AcceptedIsAuthorized | src/actions/action-repository.ts:576-594 | whoever builds it, a decision accepted under a passing result is the authorised plan or silent storing only, and under any other result silent storing only |
| ReplySpacing.RunOutwardOnly | src/actions/cooldown.ts:62-70 | in every run of the service cooldowns are started by outward actions only |
| ReplySpacing.AcceptedInRuns | src/actions/social-decision-service.ts:50-134 | after any run a further evaluated decision is stored exactly when its result is well formed and bound |
| ReplySpacing.UnpromptedRepliesAreSpaced | src/actions/social-decision-service.ts:232-252 | two unprompted steps of one group conversation that both send something are at least 60 s apart in every run, if the evaluator turns neither into a clarifying question |
| ReplySpacing.SpacingHoldsExactly | src/actions/cooldown.ts:62-70 | two such steps are kept 60 s apart by every run exactly when they are that far apart anyway or the evaluator's downgrade target or modified action is a clarifying question in neither |
| ReplySpacing.SilencedExactly | src/actions/cooldown.ts:27-42 | under any running cooldown of the conversation an unprompted step that could send something does so exactly when it is a clarifying question |
| ReplySpacing.QuestionsAreNotSpaced | src/actions/executor.ts:1145-1152 | two clarifying questions nobody asked for go out in one group at the same millisecond |
| JobKeys.BuildJobIdempotencySuffixes | src/actions/executor.ts:986-1006 | the two counting passes compute each action's ordinal among its repeated equals |
| JobKeys.KeysDistinct | src/actions/executor.ts:986-1022 | job keys of one decision are pairwise distinct, and those of different decisions too |
| JobKeys.KeyDetermines | src/actions/executor.ts:569 | a key determines its decision, its group and its suffix |
| JobKeys.AloneUnsuffixed | src/actions/executor.ts:997-999 | an action has no suffix exactly when no other action of the decision schedules the same |
| JobKeys.SuffixesCount | src/actions/executor.ts:996-1005 | those that schedule the same carry `:action1`, `:action2` and so on, in order |
| JobKeys.KeyedExactly | src/actions/executor.ts:514-569 | which actions get a key, and how it reads |
| HandleRegistry.GovernanceResourceHandleRegistry.RemoveUnless | src/http/governance-resource-handle-registry.ts:170-184 | the removal loops leave exactly the records to be kept, and the maps inverse |
| HandleRegistry.GovernanceResourceHandleRegistry.IssueHandle | src/http/governance-resource-handle-registry.ts:52-118 | checks, expiry sweep, reuse of a live binding, capacity, insertion |
| HandleRegistry.GovernanceResourceHandleRegistry.ResolveHandle | src/http/governance-resource-handle-registry.ts:120-144 | checks, expiry sweep and the match of all parts of the binding |
| HandleRegistry.InputsExactly | src/http/governance-resource-handle-registry.ts:268-278 | what is taken for a session, a handle, names, a scope, a clock and a lifetime |
| HandleRegistry.IssuedExactly | src/http/governance-resource-handle-registry.ts:52-118 | whatever is held, an accepted input gets the handle of its live binding, or a new one unless eight other sessions or 512 own handles are live; the outcome in each case and what is held afterwards |
| HandleRegistry.ResolutionFails | src/http/governance-resource-handle-registry.ts:120-131 | a query fails exactly when it is well formed and the clock is not valid; one that is not well formed finds nothing |
| HandleRegistry.RunMutual | src/http/governance-resource-handle-registry.ts:52-184 | the two maps stay inverse to each other through every run |
| HandleRegistry.HistoryOfRun | src/http/governance-resource-handle-registry.ts:52-184 | the live records are exactly the handles granted and not since expired, revoked or cleared |
| HandleRegistry.ResolvesExactly | src/http/governance-resource-handle-registry.ts:120-144 | a query resolves exactly for the session, purpose, kind and scope its handle was granted to, until expiry, revocation or clear |
| HandleRegistry.ReissueIsStable | src/http/governance-resource-handle-registry.ts:85-91 | issuing a live binding again returns the same handle and adds nothing; distinct live bindings have distinct handles |
| GovernanceSessions.GovernanceHttpServer.PruneExpiredSessions | src/http/governance-http-server.ts:554-569 | the loop removes exactly the expired sessions with their handles |
| GovernanceSessions.RunConsistent | src/http/governance-http-server.ts:517-569 | in every run, whatever its clock shows, each record belongs to a live session with the same expiry and there are at most eight sessions |
| GovernanceSessions.AuthenticatedExactly | src/http/governance-http-server.ts:554-569 | a request is let in exactly when its cookie names a session that has not expired |
| GovernanceSessions.LoginStartsExactly | src/http/governance-http-server.ts:517-552 | a login ends the prior session and starts a new one exactly when fewer than eight others are live |
| GovernanceSessions.LogoutEndsOwn | src/http/governance-http-server.ts:517-569 | a logout ends the session of its own cookie with its handles, and no other |
| GovernanceSessions.LoggedOutStaysOut | src/http/governance-http-server.ts:517-569 | in every run a session that has logged out, or was replaced by a login, is never let in again |
| GovernanceSessions.ResolvesOwnExactly | src/http/governance-resource-handle-registry.ts:120-144 | a request resolves exactly the handles held by its own session for the queried purpose, kind and scope |
| GovernanceSessions.IssueOutcomeExactly | src/http/governance-resource-handle-registry.ts:52-118 | the exact outcome of `issue` for an authenticated session at any time: beside an invalid clock or name it fails when the session seems to end too late and on the limit of 512 handles, never on the number of sessions or a mismatch of expiry |
| GovernanceSessions.LifetimeFailsExactly | src/http/governance-resource-handle-registry.ts:59 | in every run, at a time the registry's clock check accepts and with well-formed names, the input is refused exactly when the clock has stepped back since the session's login by more than the configured lifetime is below an hour, or the session ends beyond the safe integers |
| GovernanceSessions.OnlyTheHandleLimitInRuns | src/http/governance-resource-handle-registry.ts:93-101 | with a configured lifetime in its bounds and no earlier request that read a later time, `issue` fails exactly when the session has 512 handles and the binding is new |
| GovernanceSessions.ClockStepsBack | src/http/governance-resource-handle-registry.ts:59 | a login at 1000 ms with the longest lifetime, after which the session's first handle is refused at 999 ms |
| WsSession.RunSound | src/gateway/onebot-adapter.ts:758-917 | requests wait only while connected, connected means started with a current socket, started means a socket or a scheduled reconnect, stopped means neither |
| WsSession.StaleSocketsChangeNothing | src/gateway/onebot-adapter.ts:887-889 | events of a socket that is not the current one change nothing |
| WsSession.SocketsDoNotReturn | src/gateway/onebot-adapter.ts:758-791 | a socket once given up never becomes current again |
| WsSession.StoppedStaysQuiet | src/gateway/onebot-adapter.ts:156-162 | after a stop nothing but a start changes the session |
| WsSession.EventsTakeEffect | src/gateway/onebot-adapter.ts:801-855 | in every run the open event of the current socket connects the session, a response on it ends its request as answered, and a due timeout ends a waiting one |
| WsSession.ClosingTakesEffect | src/gateway/onebot-adapter.ts:866-917 | the close of the current socket and a stop end all waiting requests in order; the close schedules a reconnect, which opens a new socket |
| WsSession.StartingOpens | src/gateway/onebot-adapter.ts:758-791 | a session without a socket opens a new one when it is started |
| WsSession.CallsTakeEffect | src/gateway/onebot-adapter.ts:686-728 | a call of a connected session waits when sent, ends at once when sending fails, and is refused without a connection |
| WsSession.EachEndsOnce | src/gateway/onebot-adapter.ts:686-728 | each registered request is waiting or has ended, exactly once |
| WsSession.AllEndedAfterStop | src/gateway/onebot-adapter.ts:911-917 | after a stop every request of the run has ended exactly once |
| Admission.TurnApplicationService.TerminalizeRejection | src/application/turn-application-service.ts:235-300 | a rejection that wins writes the terminal row, one failure row and one projection; one that loses writes nothing |
| Admission.EventsSettleOnce | src/application/turn-application-service.ts:157-300 | in every interleaving an event leaves the accepted state once, by one handler start or one rejection; each winning rejection adds one failure row and one projection and finishes no earlier than acceptance |
| Admission.HandlerRunsAtMostOnce | src/application/turn-application-service.ts:174-193 | the handler of an event runs at most once, never beside a rejection, and when it returns its event is still being processed, so the closing throw never occurs |
| Admission.RowsMeetChecks | migrations/001_initial_schema.sql:157-181 | in every run all rows meet the constraints of the table on states and times; so it never refuses a rejection |
| Admission.StartsExactly | src/application/turn-application-service.ts:174-182 | before its deadline the task of an accepted event starts the handler exactly when the clock is not behind the acceptance |
| Admission.ClosesExactly | src/application/turn-application-service.ts:184-193 | in every run the end of a handler is recorded, with the state its outcome calls for, exactly when the clock is not behind its start |
| Admission.RejectionsWin | src/application/turn-application-service.ts:157-300 | a task that is refused, or begins at its deadline or later, rejects its event if that is still accepted and otherwise does nothing |
| Admission.RecordingAdds | src/application/turn-application-service.ts:108-155 | a failure recorded by a handler adds a projection, and a row unless that cannot be stored, and changes no state |
| Admission.UnclosedStays | src/application/turn-application-service.ts:184-193 | an event whose end could not be recorded stays in processing through every further step |
| Admission.ClockStepsBack | migrations/001_initial_schema.sql:159-163 | a run in which a handler starts at 1000 ms and completes at 999 ms, after which its event is in processing for good |
| Admission.StatesOnlyAdvance | src/application/turn-application-service.ts:157-300 | states only move from accepted to processing to terminal, or from accepted to failed |
| Admission.TerminalStays | src/application/turn-application-service.ts:157-300 | a terminal row never changes again |

## Left out

- SQL text, migrations and transaction mechanics: a transaction is one atomic step; a failed constraint leaves the tables unchanged.
- Retention: deleting old chat rows also deletes their attention candidates and decisions; the runs of `DelayedAttention` delete nothing.
- Surrogates: a `char` is a Unicode scalar value, so in text handling a character outside the Basic Multilingual Plane counts once where the program counts two code units, and a cut between the two is not modelled; texts within that plane are modelled code unit by code unit, and the canonical encoding on arbitrary code units.
- Number formatting: a finite number in the canonical encoding is given by its decimal text, distinct numbers having distinct texts; negative zero and non-finite numbers are separate cases.
- HMAC, SHA-256, random values and timing-safe comparison: the encoded text and the binding tuple stand for their digests.
- Redaction and secret scanning: redaction is an arbitrary function.
- Authorization.SocialDecisionService.CreateDecision: the memory-claim guard is an arbitrary replacement of payloads and the binding of an evaluation to its model invocation an arbitrary test; how either decides is not part of this model.
- Segment data that is not a string, and array entries that are not segments, which the array parser skips.
- Malformed scope objects: a scope is one of the seven shapes, and the bounds on its names are checked.
- Cooldown seconds are finite reals, as the evaluator's schema demands.
- ContextBudgetLaws.SummaryRefusalNotJustified: assumes that the prompt literals of the three field values, `c1`, `private` and `u1`, take at most 100 code units each.
- `Array.prototype.sort` is a stable insertion sort; for the consistent comparators used here every stable sort gives the same list.
- Recheck.AtMostOnce: attempts for one question are serialised, as the admission controller does per conversation; lease expiry during an attempt is not modelled.
- Recheck.RecheckHandler.HandleRecheckTask: the delayed-attention decision is an input of the attempt; that it is the same in every attempt that gets one is `DelayedAttention.DecisionIsFinal`, and an attempt that is refused one (`RetryContract.RefusedAfterFailure`) is one that throws at that step.
- DelayedAttention: the recheck's lease authority is a boolean of the attempt, of a job row only the fields the contract names are kept, and the arrival of messages is an arbitrary change of the message table.
- ContextBudgetLaws.RefusalStaysJustified: says nothing of profiles refused in the first pass, since adding messages renumbers references and may shorten other layers.
- GovernanceSessions.RunConsistent: a request reads the clock once and runs to its end before the next; preview and scope handles are not part of this model.
- WsSession: the HTTP transport, inbound events and the text of the last error are not part of this model, and echoes are assumed fresh.
- Admission: recovery after a restart, which closes interrupted admissions before the service starts, is not part of this model.
- `src/governance`, `src/evaluator`, `src/cli` and the scores of `src/attention/engine.ts`: field copying, input checks and provider calls that would only add easy members.
