# A verified model of the agent runtime

The system runs an LLM agent: it keeps a transcript per session, builds from it a context that fits a
budget, calls a model provider, executes the tool calls that come back and stores the session.  This
project models the parts of it that carry an algorithm or a protocol and proves what they are for.
One module stands for one source file or one concern:

- `Messages`, `Turns`: the transcript and its grammar.  A transcript is *legal* when it is made of
  blocks: an ordinary message, or an assistant message with calls and directly behind it the results
  for all its ids.  The grammar is a scan (`Legal`); `Protocol` says the same about positions, and the
  two are proved equivalent.
- `Sanitizer`, `SanitizerLog`, `ContextHistory`, `ActiveTurn`, `ContextAssembly`, `TokenEstimator`,
  `TextCutting`, `ReasoningLoop`: the code that keeps a transcript legal and within its budgets, and the composition of all of it.
- `Chunker`, `Incremental`: splitting documents, and bringing an index up to date after a crash or not.
- `SessionStore`, `SessionManager`, `Recency`: saving sessions row by row, and the cache in front.
- `ModelPool`, `Ladder`, `ReliableBus`, `LoopGuard`: four state machines, each proved over every run.
- `Paging`, `RepoMap`, `Ndcg`: pages of a file, directory counts, and the ranking metric.
- `PyText`, `Lists`, `Options`: strings as the source's language treats them, lists of names, options.

Loops and objects of the source are methods and classes here, each tied to a function of its inputs;
the theorems are lemmas about those functions.  A call into code that cannot be seen (a provider, a
tool, the clock, a thread) is a parameter, so that a theorem holds for every behaviour of it.

## What does not hold

Some natural claims are false of the code.  The model keeps the code and states when they do hold:

- A budgeted history may exceed its target by four characters, since the role of the summary is not
  charged (`ContextHistory.TailTrimOverrunsByFour`).  It keeps to the target exactly when nothing has
  to be trimmed, or the last turn fits beside the marker, or its summary has four characters to spare
  or four blanks where it is cut (`BudgetHistoryWithinTargetIff`).
- A forced cut can make a tool result longer (`ActiveTurn.ForcedCutMayLengthen`; exactly when:
  `ForcedCutLengthensIff`).
- Shortening a lone message need not end.  It does for every text exactly when the frame of the
  message leaves room for 24 escaped characters and the note (`TokenEstimator.LoneShorteningEndsIff`).
- When not even the opening turns fit, their texts are cut and single messages removed, which can tear
  calls from their results (`TextCutting.CuttingTearsGroup`, `TornGroup`).  A round keeps the protocol
  exactly when it shortens a text, or removes a message that neither is a result nor has calls with
  ids, or a result whose id its group has answered twice (`RoundIsLegalIff`).
- With an overlap as large as the shortest possible window the chunker stands still on some text for
  ever; with any smaller one it ends on every text (`Chunker.EndsIffProgressive`, for every chunk size).
- An incremental sync repairs only what the saved state and the file list let it see; the exact
  condition is `Incremental.Recoverable` (`SyncRebuildsIff`).
- Calls a provider reports without a raw message leave orphan results in the session
  (`ReasoningLoop.UnmirroredCallsBreakProtocol`).  A session stays legal exactly when the raw message
  asks for the ids that were answered, and the last of them comes last (`RecordingIsLegalIff`).
- A clue that occurs twice in a batch can move back down the ladder after it was completed
  (`Ladder.RepeatedClueMovesBack`).  It never does exactly when no success of it is followed by a
  failure (`BatchNeverFallsIff`); where it ends up is right exactly when a success has the last word
  (`BatchKeepsSoundIff`).
- A response can stay stored for ever: one to a message that was not sent as a request, one that comes
  after the wait timed out, and a second one to a request already answered
  (`ReliableBus.UnrequestedResponseStays`, `LateResponseStays`, `DuplicateResponseStays`).  It stays
  exactly when nobody waits for it: it was never requested, or its requester could not send the
  request, has timed out or has returned (`StaysForEverIff`).

## Model

| member | source | states |
|---|---|---|
| Messages.LegalIffProtocol | runtime/reasoning_loop.py:1107-1187 | the block scan accepts a transcript exactly when every result belongs to calls still unanswered before it, every group of calls is answered at once and completely, and no assistant message is empty |
| Messages.EmptyAssistantIff | runtime/reasoning_loop.py:1232-1244 | an assistant message is empty when it has no calls and no content, no text or no parts |
| Messages.IdsOfCalls | runtime/reasoning_loop.py:1247-1252 | the ids of a group are those of its calls, as far as they have one |
| Messages.LegalConcat | runtime/reasoning_loop.py:1107-1144 | legal transcripts can be appended to each other |
| Messages.LegalSplit | runtime/context.py:729-755 | a legal transcript can be cut before any message that is not a tool result |
| Messages.SameShapeSameLegal | runtime/context_history.py:372-411 | rewriting the texts of tool results neither breaks nor repairs the protocol |
| Turns.GroupMessages | runtime/context_history.py:488-499 | the loop cuts a transcript into turns, each reaching to the next user message |
| Turns.FlattenTurns | runtime/context_history.py:488-503 | the turns in sequence are the transcript |
| Turns.TurnsAreLegal | runtime/context_history.py:488-499 | cutting a legal transcript into turns tears no call group apart |
| Turns.FlattenLegal | runtime/context_history.py:502-503 | any selection of legal turns is a legal transcript |
| Sanitizer.SanitizeContextMessages | runtime/reasoning_loop.py:1107-1144 | the index-driven loop returns exactly the sanitized transcript and its drop log |
| Sanitizer.SanitizeToolCallGroup | runtime/reasoning_loop.py:1147-1187 | a group is kept with its results and skipped as a whole when all its ids are answered; otherwise one note replaces it and every message it covers is logged |
| Sanitizer.CollectResults | runtime/reasoning_loop.py:1147-1187 | the scan takes results of the group up to the first foreign message or until every id has been seen |
| Sanitizer.LogIncompleteGroup | runtime/reasoning_loop.py:1171-1187 | one entry for the calls and one, in order, for each result stranded with them |
| Sanitizer.SanitizedIsLegal | runtime/reasoning_loop.py:1107-1187 | whatever goes in, a legal transcript comes out |
| Sanitizer.SanitizedKeepsProtocol | runtime/reasoning_loop.py:1107-1187 | sanitizing leaves no orphan result, no unanswered call and no empty assistant message |
| Sanitizer.SilentIffUnchanged | runtime/reasoning_loop.py:1107-1144 | nothing is logged exactly when nothing was changed, and exactly when the input was legal |
| Sanitizer.SanitizeIsIdempotent | runtime/reasoning_loop.py:1107-1144 | a second pass changes nothing and logs nothing |
| Sanitizer.OrphanNoteTells | runtime/reasoning_loop.py:1218-1229 | the note for an orphan result gives its id and its text on one line, from 501 characters on cut to 500 with an ellipsis |
| Sanitizer.GroupNoteTellsResult | runtime/reasoning_loop.py:1190-1215 | the note for an incomplete group gives the id of each result it replaces and its text, likewise up to 300 characters |
| Sanitizer.GroupNoteTellsContent | runtime/reasoning_loop.py:1190-1215 | and the first 500 characters of what the assistant said, if anything |
| SanitizerLog.DropLogIsExact | runtime/reasoning_loop.py:1107-1187 | logged positions strictly increase and are exactly those of messages not copied; everything sent is a copy, in order, or a user note |
| SanitizerLog.LogSaysKind | runtime/reasoning_loop.py:1107-1187 | each entry is about a message of the kind it names: an empty assistant message, a result with the id logged, or calls with the ids expected, not all of which were answered |
| ContextHistory.SummaryIsBounded | runtime/context_history.py:316-369 | a summary never exceeds its positive limit, and costs at most the role on top |
| ContextHistory.ChargedChars | runtime/context_history.py:240-251 | a message is charged for the name of its role, its text, and what else of it is printed |
| ContextHistory.ReductionPartitions | runtime/context_history.py:254-286 | what is kept in front, what is replaced and what is kept behind are together the whole history |
| ContextHistory.ReductionKeepsHeadAndTail | runtime/context_history.py:254-286 | the first turns, as many as the rule keeps in front (none for the other strategies), and the last ones as many as it keeps behind; between them one summary exactly for the strategy that makes one; everything when that is all there is |
| ContextHistory.SummaryStandsFor | runtime/context_history.py:316-369 | a summary is a message of the user without calls, no longer than asked for, that starts with its heading and the numbers of turns and messages it stands for if there is room |
| ContextHistory.SummaryTellsOfTurns | runtime/context_history.py:321-361 | it tells of the turns in order, up to and including the first with which it reaches its limit |
| ContextHistory.TurnTellsOfResult | runtime/context_history.py:349-354 | the lines of a turn give of each result its id, the tool, its status and its squashed text |
| ContextHistory.TurnTellsOfAssistant | runtime/context_history.py:342-348 | of each message of the assistant the tools it calls, if any, and its squashed text, if any |
| ContextHistory.TurnTellsOfOther | runtime/context_history.py:355-358 | of any other message its role and its squashed text, if any |
| ContextHistory.TurnOpens | runtime/context_history.py:333-336 | they start with the number of the turn and what the user asked, if anything |
| ContextHistory.UserTextIsFirst | runtime/context_history.py:328-336 | and the squashed text of the first message of the user, if there is one |
| ContextHistory.ToolNameIsLast | runtime/context_history.py:661-674 | a result is named after the last call with its id |
| ContextHistory.SquashedText | runtime/context_history.py:702-706 | a squashed text has no line breaks and is the stripped text as far as the limit allows |
| ContextHistory.ReductionIsLegal | runtime/context_history.py:254-286 | reduction keeps a legal history legal |
| ContextHistory.TailTrimGroups | runtime/context_history.py:289-308 | the loop from the back computes the trimmed history |
| ContextHistory.FirstKeptFits | runtime/context_history.py:289-308 | the turns chosen fit beside the marker, and one more would not |
| ContextHistory.TailTrimKeepsLongestSuffix | runtime/context_history.py:289-308 | when the last turn fits, the result is the marker and the longest suffix of turns that fits, within the limit |
| ContextHistory.LastTurnCompacted | runtime/context_history.py:289-313 | when it does not, the result is the marker and a summary of the last turn, and costs just that |
| ContextHistory.TailTrimCost | runtime/context_history.py:289-313 | trimmed history costs at most four more than its limit, or than the marker and a character |
| ContextHistory.TailTrimWithinLimitIff | runtime/context_history.py:289-369 | trimmed history is within its limit exactly when its last turn fits beside the marker, or the uncut summary is four shorter than its room, or has four blanks where it is cut |
| ContextHistory.TailTrimOverrunsByFour | runtime/context_history.py:289-369 | when the last turn must go and leaves room for at most 31 characters, the limit is exceeded by exactly four; below 134, by four less the blanks before the cut |
| ContextHistory.TailTrimIsLegal | runtime/context_history.py:289-313 | trimming keeps a legal history legal |
| ContextHistory.BudgetHistoryIsLegal | runtime/context_history.py:39-124 | the budgeted history is legal whatever rule and strategy apply |
| ContextHistory.BudgetHistoryKeeps | runtime/context_history.py:39-124 | the history is left alone without a rule, with budgets off or within its budget; else it is reduced, and trimmed only if that does not reach the effective target |
| ContextHistory.BudgetHistoryCost | runtime/context_history.py:90-124 | it costs at most four more than the effective target, or than the marker and a character, and is untouched when it was small enough |
| ContextHistory.SummaryLeavesFourIff | runtime/context_history.py:316-369 | a summary leaves four characters of its room exactly when it was that short, or four blanks stand before its cut |
| ContextHistory.BudgetHistoryWithinTargetIff | runtime/context_history.py:90-124 | exactly when the budgeted history is within its effective target: it was small, reducing was enough, or trimming fits |
| ActiveTurn.FindToolIndexes | runtime/context_history.py:372-390 | lists the positions of all tool results in order |
| ActiveTurn.LatestResults | runtime/context_history.py:414-427 | maps each protected tool to its last result |
| ActiveTurn.CompressionIsSelective | runtime/context_history.py:372-411 | only texts of results change; the last few results, those of preserved tools and the last of each protected tool do not, and every other becomes a placeholder naming its tool |
| ActiveTurn.CompressOldToolResults | runtime/context_history.py:372-411 | the in-place loop computes that, and counts the messages that differ |
| ActiveTurn.PlaceholderTells | runtime/context_history.py:430-485 | a placeholder starts with the name of the tool and ends with how to call it again |
| ActiveTurn.GroupEndIsBlockEnd | runtime/context_history.py:637-650 | in a legal turn the scan for the end of a group finds the end of its block |
| ActiveTurn.ReduceActiveKeepsLastGroup | runtime/context_history.py:510-540 | summarising earlier steps keeps the protocol, the opening request and, word for word, everything from the last calls on |
| ActiveTurn.ReduceActivePartitions | runtime/context_history.py:510-540 | opening request, summarised part and last group are the whole turn; whenever there is anything to summarise, exactly one message stands for it, from the user, with the heading for active turns and the numbers of turns and messages if there is room |
| ActiveTurn.ReducedIs | runtime/context_history.py:510-540 | whatever the turn starts with, what is summarised lies between the first message of the user and the last calls after it, or is all that follows that message |
| ActiveTurn.FirstUserIs | runtime/context_history.py:517-519 | that is the first message of the user, or the first of all if the user has none |
| ActiveTurn.CompactToolGroup | runtime/context_history.py:567-586 | the loop gives each result of the group its share |
| ActiveTurn.CompactGroupCuts | runtime/context_history.py:567-586 | only a group over its limit is cut, and of it only results longer than an equal share (at least 120), down to that share and the note |
| ActiveTurn.ForceTrimToolContents | runtime/context_history.py:589-606 | the loop cuts results from the back until the list fits |
| ActiveTurn.ForceTrimFromBack | runtime/context_history.py:589-606 | results are cut from the last one backwards, each for what the list costs at that point, and none any more once it fits |
| ActiveTurn.TrimOneCuts | runtime/context_history.py:598-605 | a forced cut gives up the excess and the length of the note but leaves 80 characters |
| ActiveTurn.ForceTrimFitsOrIsShort | runtime/context_history.py:589-606 | afterwards the list fits, or every result is down to a forced cut |
| ActiveTurn.ForcedCutLengthensIff | runtime/context_history.py:589-606 | a forced cut lengthens a result exactly when its text has over 80 characters, but costs less than the first 80 without trailing blanks and the note |
| ActiveTurn.ForcedCutMayLengthen | runtime/context_history.py:589-606 | 81 letters become longer |
| ActiveTurn.CompactActiveKeepsLastGroup | runtime/context_history.py:543-564 | compaction keeps the protocol, and the last calls with the ids of their results |
| ActiveTurn.CompactActivePartitions | runtime/context_history.py:543-564 | a turn over its limit keeps its opening request and its last group; what is between gives way to one summary of at most a third of the limit, or 120 |
| ActiveTurn.CompactActiveCost | runtime/context_history.py:543-564 | a compacted turn with calls fits, or every result in it is short; one without costs what trimmed history costs |
| ActiveTurn.BudgetActiveKeepsLastGroup | runtime/context_history.py:127-237 | the whole budgeting of the active turn keeps the protocol and the last calls with the ids of their results, whatever the rule |
| ActiveTurn.BudgetActiveSteps | runtime/context_history.py:127-237 | a turn is left alone without a rule or with budgets off; else old results are replaced, then earlier steps summarised, then the rest cut, each only if the step before was not enough |
| ActiveTurn.BudgetActivePartitions | runtime/context_history.py:127-237 | whatever that takes, the opening request stays, exactly one message of the user stands for the steps before the last calls if there are any, and these stay with their results |
| ActiveTurn.BudgetActiveCost | runtime/context_history.py:127-237 | a budgeted turn with calls is within its effective target, or every result in it is short |
| ContextAssembly.SplitKeepsProtocol | runtime/context.py:729-755 | cutting a legal session at the turn start gives a legal history and a legal turn that starts with the user |
| ContextAssembly.SplitAtStart | runtime/context.py:735-742 | a turn whose start is known is cut off there, clamped to the session |
| ContextAssembly.SplitAtLastUser | runtime/context.py:744-755 | otherwise the last message of the user is taken out of the history, and there is no active turn without one |
| ContextAssembly.AssembledInOrder | runtime/context.py:146-168 | system prompt, history, frame if there is one, active turn, in this order; without budgets nothing of the session is missing |
| ContextAssembly.AssembledIsLegal | runtime/context.py:155-166 | the context assembled from a legal session is legal, whatever the budgets do |
| ContextAssembly.SanitizerNeverDrops | runtime/context.py:155-166 | so on such a context the sanitizer changes nothing and logs nothing |
| ContextAssembly.SentIsLegal | runtime/reasoning_loop.py:348-373 | whatever context goes in, what is sent after sanitizing and trimming is legal, unless texts had to be cut from a selection with calls in it |
| TokenEstimator.ShorteningProgress | runtime/token_estimator.py:125-151 | a text of 49 characters or more gets strictly shorter, a shorter one stays short |
| TokenEstimator.ShortenedKeeps | runtime/token_estimator.py:144-150 | of a text of 200 characters or more 65 percent stay, rounded down, of a shorter one half; then the blanks at the cut go and the note comes |
| TokenEstimator.RoundTakesLargest | runtime/token_estimator.py:133-150 | a round takes the first of the largest messages, sparing the first of all if there are others, shortens a text of 200 characters or more or of the only message, and removes anything else |
| TokenEstimator.EscapedCharsAreWritten | runtime/token_estimator.py:154-158 | a text is charged the length of its JSON form |
| TokenEstimator.TokensRoundUp | runtime/token_estimator.py:30 | three characters to the token, rounded up |
| TokenEstimator.StepKeepsFirst | runtime/token_estimator.py:125-151 | a round never removes a first message that is text and never adds one |
| TokenEstimator.StepMakesProgress | runtime/token_estimator.py:125-151 | every round removes a message or lowers a measure on its text |
| TokenEstimator.TrimmingEnds | runtime/token_estimator.py:125-151 | so the rounds end, unless the first message is text and its frame leaves that too little room |
| TokenEstimator.TrimTextMessages | runtime/token_estimator.py:125-151 | on any list on which the rounds end it takes just as many as needed and ends, empty or within the limit, with the first message still there if it was text |
| TokenEstimator.LoneShorteningEndsIff | runtime/token_estimator.py:125-151 | the loop ends on every lone message in a frame exactly when the frame leaves room for the longest text a round cannot shorten |
| TokenEstimator.FlattenGroups | runtime/token_estimator.py:113-122 | system messages, then the selected turns in order |
| TokenEstimator.GrowTail | runtime/token_estimator.py:75-84 | the first loop adds turns from the back, one past the last that fits |
| TokenEstimator.ShrinkTail | runtime/token_estimator.py:86-95 | the second loop takes at most one turn back and ends at the longest suffix that fits, if any does |
| TokenEstimator.SuffixStartIsLongest | runtime/token_estimator.py:75-91 | that suffix fits and no longer one does |
| TokenEstimator.SelectingAllIsAll | runtime/token_estimator.py:51-95 | everything fits exactly when selecting every turn does |
| TokenEstimator.EmergencyTrim | runtime/token_estimator.py:51-95 | a list that fits is returned as it is; an over-limit one whose system messages and first two turns (or only turn) fit becomes those and the longest suffix of further turns that fits; only when not even they fit are their texts cut, round by round, until the result is empty or within the limit |
| TokenEstimator.TrimmedKeepsTwoTurns | runtime/token_estimator.py:51-95 | the same with the numbers written out: the first two turns, or the only one, and the turns from the smallest start on that fits |
| TokenEstimator.SystemIsFiltered | runtime/token_estimator.py:69-70 | system messages and others are told apart one by one and keep their order |
| TokenEstimator.TrimmedSelectionIsLongest | runtime/token_estimator.py:51-95 | that selection is within the limit and cannot be extended |
| TokenEstimator.TrimmedSelectionIsLegal | runtime/token_estimator.py:51-95 | and it is legal whenever the messages other than system messages are |
| TokenEstimator.NonSystemIsLegal | runtime/token_estimator.py:69-70 | which holds for every legal list, wherever its system messages stand |
| TokenEstimator.EmergencyCuttingEnds | runtime/token_estimator.py:51-95 | cutting the texts of the least selection ends when the first message, if text, leaves room for a short one |
| TokenEstimator.LeastSelectionIsLegal | runtime/token_estimator.py:51-95 | that selection is legal before its texts are cut |
| TextCutting.RemovalIsLegalIff | runtime/token_estimator.py:138-144 | a message can be removed from a legal list exactly when it neither is a result nor has calls with ids, or is a result with an id its group has answered twice |
| TextCutting.RoundIsLegalIff | runtime/token_estimator.py:125-151 | a round of cutting keeps a legal list legal exactly when it shortens a text or removes such a message |
| TextCutting.CuttingPlainIsLegal | runtime/token_estimator.py:125-151 | so any number of rounds keeps a legal list legal that has no calls with ids |
| TextCutting.CuttingTearsGroup | runtime/token_estimator.py:125-151 | a short result that is larger than its call goes first and leaves the call unanswered |
| TextCutting.TornGroup | runtime/token_estimator.py:51-95 | three such messages and a limit at which this happens |
| ReasoningLoop.AnsweredCallsAreLegal | runtime/reasoning_loop.py:508-717 | calls with distinct ids and one result for each, in order, are a legal block |
| ReasoningLoop.EmptyResponseIff | runtime/reasoning_loop.py:1267-1280 | a reply is empty exactly when it has no calls and no content, a text of blanks only, or no parts |
| ReasoningLoop.SearchDenied | runtime/reasoning_loop.py:783-801 | a search is denied exactly when the budget is used up; otherwise used and remaining move by one |
| ReasoningLoop.ExecuteCall | runtime/reasoning_loop.py:517-717 | one result with the id of the call; used plus remaining searches stay the limit |
| ReasoningLoop.ExecuteToolCalls | runtime/reasoning_loop.py:517-717 | appends one result per call in call order, reports denials, compaction and unavailable tools, and charges the search budget once per search up to its limit |
| ReasoningLoop.SearchesAreCounted | runtime/reasoning_loop.py:783-801 | as many searches are charged as there are calls to the search tool |
| ReasoningLoop.SomeCallIff | runtime/reasoning_loop.py:517-717 | compaction is reported exactly when some call asks for it; a denial may be reported only when the guard would deny some call, and must be when it denies one that is not a search |
| ReasoningLoop.UnmirroredCallsBreakProtocol | runtime/reasoning_loop.py:508-515 | calls reported without a raw message make the session illegal |
| ReasoningLoop.RecordingIsLegalIff | runtime/reasoning_loop.py:508-717 | recording calls and results keeps a session legal exactly when the raw message asks for just the ids answered, none of them empty, and the last answer is to an id not answered before |
| ReasoningLoop.CountUnavailable | runtime/reasoning_loop.py:292-308 | the turn is exhausted exactly when some tool has been requested in vain as often as allowed; otherwise the counts are those of all requests so far |
| ReasoningLoop.ReasoningLoop.MaybeRemind | runtime/reasoning_loop.py:728-781 | the reminder is added once, from its step on |
| ReasoningLoop.ReminderStepIsLeast | runtime/reasoning_loop.py:777-781 | that is the first step that has used up the ratio, the last one at the latest, and none for a ratio that is not positive |
| ReasoningLoop.ReasoningLoop.StopTurn | runtime/reasoning_loop.py:850-882 | one assistant message and a stop reason are recorded, and `after_turn` is called once |
| ReasoningLoop.ReasoningLoop.RecordAndExecute | runtime/reasoning_loop.py:508-717 | response and results extend a well-formed transcript to a well-formed one |
| ReasoningLoop.TallyStep | runtime/reasoning_loop.py:292-308 | counting one more step fails exactly when the tally over all steps so far has become too much |
| ReasoningLoop.TwiceIsTooMany | runtime/reasoning_loop.py:292-308 | twice is too often |
| ReasoningLoop.TallyAddsUp | runtime/reasoning_loop.py:292-308 | the tally of a tool is the number of calls in all steps so far that asked for it in vain |
| ReasoningLoop.ReasoningLoop.HandleReply | runtime/reasoning_loop.py:180-328 | what each reply makes of the transcript, which replies end the turn and how, and that `after_turn` is called once if it ends and not at all otherwise; a reply with calls adds one message with its text and calls and then one result for each, a final one a message with its text |
| ReasoningLoop.ReasoningLoop.Run | runtime/reasoning_loop.py:71-328 | over every turn: well formed at each model call and at the end, a prefix never changed, at most the allowed number of model calls, one `after_turn` unless the model call raises, searches balanced; each transcript is made from the last one as the replies demand, with the reminder at its step only; every call is recorded with its results; a finished turn ends with the text of the last reply; and every way to stop is taken only for its reason |
| Chunker.WindowSize | knowledge/security_rag.py:894-952 | no window is wider than five quarters of the chunk size |
| Chunker.SplitPointIsLastBreak | knowledge/security_rag.py:916-926 | the split point is the last place in the window where one of the seven breaks stands, or none |
| Chunker.WindowEndsAfterBreak | knowledge/security_rag.py:902-907 | a window before the last ends one past the last break behind its middle if that leaves no code fence open |
| Chunker.WindowWithoutBreakIsFull | knowledge/security_rag.py:902-907 | without such a break it has the size of a full chunk; the last window takes the rest |
| Chunker.OpenFenceMoves | knowledge/security_rag.py:942-952 | a window that ends in an open fence ends before it if it opens behind the middle, else behind the fence that closes it if that costs at most a quarter, else where it would have |
| Chunker.OverlapStartsAtParagraph | knowledge/security_rag.py:929-939 | the next window starts at the first paragraph in the overlap |
| Chunker.OverlapStartsAtLine | knowledge/security_rag.py:929-939 | else at the first line in it |
| Chunker.OverlapStartsAnywhere | knowledge/security_rag.py:929-939 | else where the overlap starts |
| Chunker.WindowIsNotShorter | knowledge/security_rag.py:894-952 | none before the last is shorter than the shortest possible one, about a quarter of the chunk size |
| Chunker.NextWindowAdvances | knowledge/security_rag.py:894-939 | with an overlap smaller than that the next window starts later, and no later than this one ends |
| Chunker.AdvancesIffProgressive | knowledge/security_rag.py:894-952 | that bound is exact for every chunk size: with any larger overlap some window is followed by one that does not start later |
| Chunker.EndsIffProgressive | knowledge/security_rag.py:894-952 | the loop ends on every text exactly with an overlap within that bound |
| Chunker.ProgressiveFinishes | knowledge/security_rag.py:894-913 | so with such an overlap the loop ends on every text |
| Chunker.SplitSemanticText | knowledge/security_rag.py:894-913 | on every text on which the loop ends it returns the nonempty stripped windows |
| Chunker.WindowsWalk | knowledge/security_rag.py:894-913 | whenever the loop ends, each window starts at or before the end of the one before, and the last ends with the text |
| Chunker.WindowsAdvance | knowledge/security_rag.py:894-913 | with an overlap the windows can outgrow their starts strictly increase |
| Chunker.WindowsPartition | knowledge/security_rag.py:894-913 | without overlap the windows partition the text |
| Chunker.NonBlankIsKept | knowledge/security_rag.py:894-913 | every non-blank character lies, at its place, inside some chunk |
| Chunker.ChunkComesFromWindow | knowledge/security_rag.py:908-910 | each chunk is the text of a window without blanks at its ends, and not empty |
| Chunker.ChunksAdvance | knowledge/security_rag.py:894-913 | the chunks are in the order of their windows |
| Chunker.HeadingPaths | knowledge/security_rag.py:870-887 | the heading stack gives each section the chain of the headings that enclose it, each the last earlier one of a smaller level |
| Incremental.SyncRebuildsIff | knowledge/incremental.py:53-98 | sync equals a full rebuild exactly from starting points where unchanged files are indexed as they are and all others known or listed |
| Incremental.OneFileStaysRecoverable | knowledge/incremental.py:63-88 | rewriting a changed file or dropping an unlisted one, even half way, keeps such a starting point |
| Incremental.RebuiltAgrees | knowledge/incremental.py:53-98 | after a rebuild the new state describes the index |
| Incremental.Ingester.UpsertChunks | knowledge/security_rag.py:140-159 | writing in batches is writing all chunks; the moments are all the states in between, one batch apart, and in none is another file touched |
| Incremental.UpsertIs | knowledge/security_rag.py:140-159 | afterwards each chunk written is there with the text written last, and all else as before |
| Incremental.Ingester.DeleteUnlisted | knowledge/incremental.py:61-67 | files no longer listed lose chunks and entry; the moments are all states in between, one deletion apart, and a rerun recovers from each |
| Incremental.Ingester.SyncFile | knowledge/incremental.py:71-91 | a changed file is indexed again, an unchanged one left alone; the moments are all states in between, one write apart, and a rerun recovers from each |
| Incremental.Ingester.Sync | knowledge/incremental.py:53-98 | from any start each file ends up as specified; from a recoverable one the index is that of a full rebuild and agrees with the state; the moments are all states the index passes through, one deletion or batch apart, none of which touches an unchanged file, and from each of them a rerun gets there; the four counters are exact |
| Incremental.FilesIndexedHaveChanged | knowledge/incremental.py:69-98 | as many files are reported as indexed as have changed, each counted once |
| Incremental.ChunksAddUp | knowledge/incremental.py:69-98 | the chunks reported are those of the changed files, each counted once |
| Incremental.AgreementIsRecoverable | knowledge/incremental.py:53-98 | state and index that agree are such a start |
| Incremental.Ingester.SyncEach | knowledge/incremental.py:53-98 | over any sequence of syncs while files come, change and go, each leaves the index of a full rebuild |
| SessionStore.LoadInvertsSave | sessions/session_store.py:51-84 | reading the rows of a list in order gives the list back |
| SessionStore.ReadByNumber | sessions/session_store.py:51-84 | rows are read by rising number, whatever gaps there are |
| SessionStore.FirstChanged | sessions/session_store.py:127-139 | finds the end of the common prefix, and nothing exactly when the rows are already those of the list |
| SessionStore.CommonPrefix | sessions/session_store.py:127-139 | the most messages from the start that are stored as they are |
| SessionStore.RewrittenTail | sessions/session_store.py:141-163 | the rows kept and the rows inserted are the rows of a full rewrite |
| SessionStore.Store.InsertMany | sessions/session_store.py:151-163 | each row is inserted under a key that is free |
| SessionStore.Store.SaveMessages | sessions/session_store.py:118-165 | from any rows, gaps and extra tail included, the rows become those of the list, by inserting what lies beyond the common prefix |
| SessionStore.Store.SaveSession | sessions/session_store.py:86-168 | the same for a session: loading gives its messages back, other sessions are untouched, the creation time of a known session stays |
| SessionStore.Store.LoadSession | sessions/session_store.py:51-84 | nothing for an unknown session, else its columns and its messages in order |
| SessionStore.Store.DeleteSession | sessions/session_store.py:191-202 | rows and session go, others stay, and the result tells whether it existed |
| Recency.RecentIsByLastUse | sessions/session.py:57-89 | moving ids to the end keeps exactly the ids in use, each once, by time of last use |
| Recency.LastUseIs | sessions/session.py:57-89 | last use is the position of the last request or save after which the id was not deleted |
| Recency.TrackedAreNewest | sessions/session.py:110-112 | what a cache has evicted was last used before anything it holds |
| SessionManager.SessionManager.EvictIfNeeded | sessions/session.py:110-112 | the oldest go until the size is right; the newest stays |
| SessionManager.SessionManager.GetOrCreate | sessions/session.py:57-75 | a cached session is returned as it is, another loaded from the store; it is not evicted, as many others are kept as fit, and the cache stays in step with the store |
| SessionManager.SessionManager.Save | sessions/session.py:77-82 | the session is stored and cached, and evicts no more than it must; the store keeps all others |
| SessionManager.SessionManager.Delete | sessions/session.py:87-89 | the session leaves cache and store |
| SessionManager.SessionManager.UnmodifiedAgrees | sessions/session.py:57-89 | in every reachable state a cached session not modified since its last load or save agrees with the store, in messages and in columns |
| SessionManager.SessionManager.EvictsLeastRecentlyUsed | sessions/session.py:57-112 | in every reachable state each evicted session was last used before each cached one |
| ModelPool.ExpandRoute | models/model_pool.py:162-179 | the chain lists all a route mentions, once, in order of mention; otherwise the first thing missing is reported |
| Lists.DedupIsExact | models/model_pool.py:162-179 | deduplication keeps every name, each once, in the order of first mention |
| ModelPool.ChainIsConfigured | models/model_pool.py:162-179 | a chain has no duplicates and only configured profiles |
| ModelPool.ForCallIsSound | models/model_pool.py:157-160 | the profiles tried are exactly the available ones of the chain in its order, or all of them when none is |
| ModelPool.ModelPool.RouteOfPurpose | models/model_pool.py:181-190 | a purpose gets its own route, else that of the purpose it is an alias of, else the default route, else the default profile |
| ModelPool.ModelPool.CalledWithModel | models/model_pool.py:349-357 | each profile is called through its provider with its own model, but the first of the route with the model asked for, if any |
| ModelPool.StreakCounts | models/model_pool.py:215-241 | failures in a row are those since the last success |
| ModelPool.FailuresAreStreak | models/model_pool.py:223-241 | the failure counter is the number of failures since the last success |
| ModelPool.DeadlineIsLastTrip | models/model_pool.py:215-241 | a deadline is one cooldown after the failure that last tripped the breaker |
| ModelPool.UnavailableIff | models/model_pool.py:197-241 | after any sequence of events a profile is unavailable exactly within one cooldown of a forced failure, or one too many in a row, not followed by a success |
| ModelPool.ModelPool.UnavailableHasCause | models/model_pool.py:197-241 | the same in every reachable state of the pool |
| ModelPool.ModelPool.MarkSuccess | models/model_pool.py:215-221 | a success is recorded and the health of every profile remains that of its history |
| ModelPool.ModelPool.MarkFailure | models/model_pool.py:223-241 | likewise for a failure, forced or not |
| ModelPool.ModelPool.HealthCheckProfile | models/model_pool.py:243-272 | a failed ping counts as a forced failure, a successful one as a success |
| ModelPool.ModelPool.Attempts | models/model_pool.py:347-411 | the chain is tried in order up to the first outcome that succeeds or has shown text; attempts, retry count, model, health events and the text delivered are those of that run |
| ModelPool.ModelPool.Call | models/model_pool.py:339-411 | a call follows its plan, or reports a route that is empty or mentions something unknown |
| ModelPool.PassedOverAreSilent | models/model_pool.py:352-403 | no profile is tried twice, only the last attempt of an answered call succeeded, and every provider passed over failed without showing the caller any text |
| ModelPool.EndReason | models/model_pool.py:352-411 | a call is cut off only after its caller has seen text of a stream, and fails only when every profile failed in silence |
| ModelPool.EventsTellOutcomes | models/model_pool.py:373-403 | the breaker hears of each profile tried, in order, whether it failed or answered |
| Ladder.Orchestration.Guard | agents/subagent/orchestration_state.py:56-118 | a batch passes exactly when fan-outs are left and no clue in it is barred; otherwise the first reason is reported and counted |
| Ladder.BatchPassesIff | agents/subagent/orchestration_state.py:56-118 | in terms of each clue: its failures below the limit and its stage one of the first two; fan-outs are looked at first, then the clues in order |
| Ladder.GuardEnters | agents/subagent/orchestration_state.py:56-118 | the guard enters the clues it has looked at: none without fan-outs, else those up to the barred one |
| Ladder.Orchestration.RecordDispatch | agents/subagent/orchestration_state.py:121-129 | one fan-out, and an attempt for each task |
| Ladder.Orchestration.RecordResults | agents/subagent/orchestration_state.py:132-152 | each result is applied to its clue, for as many as both lists have |
| Ladder.ResultsForClue | agents/subagent/orchestration_state.py:132-152 | what a batch makes of one clue: its failures add up, any success completes it, its last result sets the stage |
| Ladder.BatchKeepsSoundIff | agents/subagent/orchestration_state.py:132-152 | after a batch the stage fits failures and completion exactly when a success is not followed by a failure with the last word |
| Ladder.BatchNeverFallsIff | agents/subagent/orchestration_state.py:132-152 | within a batch a clue never moves back exactly when no success of it is followed by a failure |
| Ladder.RepeatedClueMovesBack | agents/subagent/orchestration_state.py:132-152 | a clue listed twice, succeeding and then failing, ends up completed but at the narrowed stage |
| Ladder.PlayRound | tools/handlers.py:2023-2043 | guard, dispatch and results in sequence are one round of the run |
| Ladder.RoundForTask | agents/subagent/orchestration_state.py:121-152 | a task of a batch let through adds an attempt to its clue, and by its result a failure and the next stage, or completion |
| Ladder.PlayCounts | agents/subagent/orchestration_state.py:56-129 | a round costs a fan-out or is counted as rejected, and a rejected one changes no clue |
| Ladder.PlayAll | tools/handlers.py:2023-2043 | any sequence of tool calls is a run |
| Ladder.RunStaysWithinLimits | agents/subagent/orchestration_state.py:56-152 | in every run of batches with distinct clues, fan-outs stay within their limit, failures within the smaller of limit and two, and the stage follows from failures and completion |
| Ladder.StageTellsFailures | agents/subagent/orchestration_state.py:132-152 | at no failure a clue is with a subagent, at one narrowed, at two with a teammate, once completed terminal; it never fails more often |
| Ladder.RunMovesForward | agents/subagent/orchestration_state.py:132-152 | over any stretch of a run a clue never moves back, and a completed one never changes |
| Ladder.CompletedNeverDispatched | agents/subagent/orchestration_state.py:56-118 | a completed clue takes part in no later round |
| Ladder.AttemptsAreAccountedFor | agents/subagent/orchestration_state.py:121-152 | when every task reports, attempts are failures plus completion |
| ReliableBus.InvariantHolds | bus/reliable.py:18-90 | under every interleaving: a pending request is unanswered, an answered one keeps a response until its requester takes it, responses are filed by the id they answer |
| ReliableBus.WokenFindsItsResponse | bus/reliable.py:18-42 | a woken requester finds a response, and it is one to its own request |
| ReliableBus.TakesTheLatest | bus/reliable.py:18-42 | it returns the latest response to its request as of that moment |
| ReliableBus.LatestIs | bus/reliable.py:77-90 | the latest response is the last one stored under its id |
| ReliableBus.NoneOnlyAfterTimeout | bus/reliable.py:36-42 | a request gives up exactly when its wait timed out |
| ReliableBus.NoLostWakeUp | bus/reliable.py:77-90 | a response that arrives after the request was registered signals its requester for good, unless that had given up |
| ReliableBus.LateResponseIsNeverTaken | bus/reliable.py:26-42 | a response nobody waits for stays stored whatever happens |
| ReliableBus.StaysForEverIff | bus/reliable.py:18-90 | a stored response stays for ever exactly when it was never requested, or its requester could not send, timed out or returned; otherwise some continuation takes it |
| ReliableBus.UnrequestedResponseStays | bus/reliable.py:77-90 | a response to a message that was not sent as a request stays |
| ReliableBus.DuplicateResponseStays | bus/reliable.py:77-90 | a second response to a request that was answered stays |
| ReliableBus.LateResponseStays | bus/reliable.py:77-90 | so does one that arrives after the wait timed out |
| ReliableBus.ReliableMessageBus.EventStep | bus/reliable.py:36-89 | sending or failing to, setting an event, being woken and giving up are single steps |
| ReliableBus.ReliableMessageBus.BeginRequest | bus/reliable.py:33-35 | registering is one atomic step |
| ReliableBus.ReliableMessageBus.FileResponse | bus/reliable.py:77-90 | the response is stored and its event popped in one step; messages without correlation id change nothing |
| ReliableBus.ReliableMessageBus.EndTimedOut | bus/reliable.py:37-40 | a request that timed out is withdrawn |
| ReliableBus.ReliableMessageBus.EndWoken | bus/reliable.py:41-42 | a woken request returns the latest response to its own id |
| Paging.WidthIsJoinLength | tools/handlers.py:618-640 | the running total is the length of the joined page |
| Paging.FitLinesToChars | tools/handlers.py:618-640 | as many whole lines as fit the budget, or of a first line that is too long its beginning; the page never exceeds the budget |
| Paging.FormatLineWindow | tools/handlers.py:548-580 | the page starts where asked, is as long as request and budget allow, and has a notice exactly when lines remain |
| Paging.PageInNumbers | tools/handlers.py:548-640 | in numbers: 500 characters less than asked for but at least 80, or 49500; a page ends where the limit ends or where one line more would be too much, and suggests the limit asked for or the lines it showed |
| Paging.PagesShowEachLineOnce | tools/handlers.py:548-580 | following the notices with whatever limits shows every line once and in order, loses only ends of lines longer than a page, and needs at most one page per line |
| Paging.LastPageEndsFile | tools/handlers.py:548-580 | there is no notice exactly when the whole file has been shown |
| Paging.ShortLinesComeWhole | tools/handlers.py:548-580 | nothing is lost from a file whose lines fit on a page |
| Paging.ReadAll | tools/handlers.py:562-580 | a reader who follows the notices gets to the end |
| RepoMap.Accumulate | tools/handlers.py:841-877 | a file is added to exactly the directories from the target down to its own, which is always among them |
| RepoMap.AddingKeepsMap | tools/handlers.py:841-877 | so each entry stays the count of all files beneath its directory |
| RepoMap.BuildRepoMap | tools/handlers.py:785-838 | directories from the target down with their exact counts, files to the depth asked for, and the totals |
| RepoMap.ListedAreShallow | tools/handlers.py:818-826 | the files listed are exactly those to the depth asked for, in the order given |
| RepoMap.MapCountsFiles | tools/handlers.py:841-877 | a directory is in the map exactly when a file is beneath it, with its depth and the number of files beneath it |
| RepoMap.TargetCountsAll | tools/handlers.py:785-838 | the target directory counts everything |
| RepoMap.DirectoryIsOwnPlusChildren | tools/handlers.py:841-877 | each directory counts its own files and what its child directories count |
| RepoMap.ChildrenAreListed | tools/handlers.py:841-877 | and those child directories are exactly the ones in the map |
| LoopGuard.StretchIsLimited | tools/hooks.py:119-142 | in any stretch one longer than the window fewer than the limit of equal entries got through |
| LoopGuard.RefusedIff | tools/hooks.py:119-142 | a call is refused exactly when it would be the limit-th of its kind, or of its tool, among itself and the last calls in the window |
| LoopGuard.LimitsApplied | tools/hooks.py:101-118 | no limit is below two, and the window is at least as long as the limit on one tool |
| LoopGuard.ToolLoopGuard.Before | tools/hooks.py:119-142 | a call is refused exactly when it, or its tool, was requested too often in the window, refused calls included |
| LoopGuard.ToolLoopGuard.After | tools/hooks.py:144-170 | a result is refused exactly from its limit on, counted over the turn |
| LoopGuard.CountsIff | tools/hooks.py:144-170 | results are counted of seven reading tools, when they succeed and say something |
| LoopGuard.ToolLoopGuard.ResetTurn | tools/hooks.py:172-175 | a new turn starts with nothing remembered for that session only |
| LoopGuard.KeysOfSessions | tools/hooks.py:119-121 | sessions share no memory; requests outside any session share one |
| LoopGuard.ToolLoopGuard.TurnIsOrderly | tools/hooks.py:101-142 | in every reachable state the deques hold exactly the last calls of the turn, and both repetition limits hold over every stretch of it |
| Ndcg.SortsDescending | scripts/eval_security_rag_v2.py:208-213 | sorting gives a descending order of the same relevances |
| Ndcg.DescendingOrderIsUnique | scripts/eval_security_rag_v2.py:208-213 | there is only one such order |
| Ndcg.SortedPrefixIsLargest | scripts/eval_security_rag_v2.py:208-213 | no order puts more relevance into a prefix than the sorted one |
| Ndcg.GainOfLead | scripts/eval_security_rag_v2.py:208-213 | a ranking ahead in every prefix gains at least its lead, discounted at the last rank |
| Ndcg.NdcgIsNormalised | scripts/eval_security_rag_v2.py:208-213 | the metric lies between zero and one, for any relevances, cut-off and positive decreasing discount |
| Ndcg.NdcgIsRatio | scripts/eval_security_rag_v2.py:208-213 | the metric times the gain of the best order is the gain of the ranking, and zero when no order gains anything |
| Ndcg.DcgAddsUp | scripts/eval_security_rag_v2.py:208-213 | gains add up rank by rank |
| Ndcg.PerfectIffSorted | scripts/eval_security_rag_v2.py:208-213 | with a strict discount and a nonzero ideal it is one exactly when the ranks looked at match the sorted ones |

## Left out

- Calls into code that cannot be seen: providers, tools, databases, file system, vector store, clock and threads are parameters, maps or steps that may interleave.
- Prompts, notices, reports and trace events: their wording is a constant of the right length where length matters and merely not empty where it does not; lines that list ids in notes, and the text of tool placeholders beyond tool and arguments, are abstract.
- Messages that are not dictionaries, and contents other than a string, a list of text parts or nothing; of a printed list only its text is modelled and the rest is a number.
- Rounding of floating-point numbers: the 0.65 of a cut, the 1.25 of a window, times and discounts are exact.
- A provider's own token count: only the estimate by characters is modelled.
- Regular expressions: headings are given as matches, and chunk offsets refer to the normalised text.
- TokenEstimator.TrimTextMessages: says nothing of lists on which the rounds never end; TrimmingEnds and LoneShorteningEndsIff say when they do.
- TokenEstimator.EmergencyTrim: says nothing of lists whose texts have to be cut without end.
- Chunker.SplitSemanticText: says nothing of texts on which the loop never ends; EndsIffProgressive says for which overlaps there are any.
- ReasoningLoop.ReasoningLoop.Run: relies on providers that give calls distinct nonempty ids and mirror them in the raw message, as the code expects; RecordingIsLegalIff says what happens otherwise.
- Incremental.Ingester.Sync: takes chunk ids as injective and a fingerprint as never reused for other content.
- ModelPool.ModelPool.constructor: asks for a configured default profile; the error raised otherwise is modelled by Create.
- Reading profiles and routes from the environment, normalising names, and clients that cannot be created.
- Session timestamps, listing sessions, and removing expired ones.
- The diagnostics of a clue: its last tool, failure reasons and last rejection.
- Ids of bus messages are eight hexadecimal digits of a random UUID; they are taken as fresh.
- What the context builder and the callbacks after tool calls, for reflection and after a turn do to the session: a teammate's builder, for one, appends inbox messages; the loop is modelled as if they changed nothing but what they return.
- A batch of chunks and the deletion of a file's chunks are taken as single writes to the vector store.
- Fingerprints of calls, clue keys and result digests are taken as given strings, equal exactly when the source's are.
- The order in which the repository map lists directories, and how files are found.
- Precision, recall, reciprocal rank and latency percentiles: each would only be an easier member.
- Shell safety, path checks, authentication, embeddings, rerankers, memory normalisation and the web and chat front ends.
