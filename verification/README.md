# Verified model of the agent engine

A Dafny model of the parts of the agent engine where logic surrounds foreign calls: the loop that
drives one Run and the trace it leaves, the way later Runs read that trace back, the compaction that
folds a long history into a summary, the token budget, the pool that shares sandboxes between
concurrent Runs, and the text machines around them (streaming, fenced code, redaction, the semicolon
scanner, globs, generated names). The language model, the JavaScript runtime, the clock and the
store's failures are arbitrary: each is a parameter that the theorems quantify over.

| file | models |
|---|---|
| `run.dfy`, `trace.dfy`, `usage.dfy` | one Run: its steps, its tokens, its single Finalize; what every Run's trace looks like and its result reports |
| `secrets.dfy` | what a Redactor keeps out of traces and results |
| `history.dfy`, `store.dfy` | steps persisted and rehydrated into messages |
| `session.dfy`, `replays.dfy`, `checkpoint.dfy` | any number of Runs in a row, whatever the store does: indices, what a replay shows, what a checkpoint gives back |
| `conversation.dfy`, `orphan.dfy` | the conversation carried on, results and their scripts |
| `cost.dfy` | how often a session of any length pays for a compaction |
| `witness.dfy` | concrete sessions: one to which the session theorems apply, and those in which what they exclude goes wrong |
| `compact.dfy`, `summarize.dfy`, `fold.dfy`, `transcript.dfy`, `calls.dfy` | the compactor: split point, chunking, grouping, folding, elision, and what fits one call |
| `budget.dfy`, `profile.dfy`, `messages.dfy` | the token budget and the limits derived from a context window |
| `pool.dfy`, `sweep.dfy` | the sandbox pool as a state machine of any number of threads; what its sweeps clean and its Builds get |
| `redact.dfy`, `streamer.dfy`, `parser.dfy`, `fence.dfy`, `scanner.dfy`, `names.dfy`, `glob.dfy`, `text.dfy` | the text machines and the string routines under them |
| `listener.dfy` | what a listener hears of a streamed reply against the answer the loop takes from it |

`dafny verify dfyconfig.toml` checks everything.

Code that updates state is modelled by classes and loops and proved against functions
(`Run.Runner`, `Compact.SummarizingCompactor`, `Summarize.Attempt`, `Redact.Redactor`,
`Streamer.ResponseStreamer`, `OpenAPI.NameTable`, `Store.StepStore`); the theorems are about those
functions. The pool is a transition relation, because what matters there is every interleaving.

## Where the code and its documentation part

The model follows the code. Each of these is a theorem below.

- `loop.go:93` calls `RunResult.Steps` the number of steps this Run persisted; `run.go:245,288` count
  the loaded ones too (`Trace.StepsCountIff`).
- `compact.go:272-275` says a compacted history is always strictly shorter; that needs
  `keep + 2 <= trigger`, or nothing kept (`Compact.ShrinksIff`). `compact.go:294-296` says one step back always reaches
  the script of a result; two results in a row defeat it (`Compact.TailOpensWithResultIff`). Exactly when
  a session's rows put two in a row is `Orphan.OrphansIff`; a user message that begins with the label, a
  lost append and restarted indices all do, the first in the calls that
  `Orphan.OrphansOfCallsIff` names (`Witness.LabelledQuestionOrphans`,
  `Witness.LostAppendOrphans`, `Witness.OutgrownResultsOrphan`).
- `compact.go:242-245` guards against an indivisible tail; a history over the trigger never has one
  (`Compact.SplitBounds`).
- `compact.go:124-128` says each fold round shrinks its input; it need not
  (`Summarize.FoldRunsAway`); it does exactly when two neighbouring parts fit one call
  (`Fold.RoundShrinksIff`).
- `history.go:62` filters rows by index against a checkpoint's marker. Exactly when that shows the rows
  it should is `Replays.FilterIff` and `Checkpoints.CheckpointReplayIff`, for every trace. It is right
  while indices are positions. A Run that leaves d rows unloaded, because the session outgrew its
  window or the load failed, keeps them positions if and only if its first d appends fail and no append
  succeeds after any further failure; with d = 0 the second half is all (`Session.FaithfulIff`). Once
  they are not, a Run can lose its own question (`Conversation.QuestionReplayedIff`,
  `Witness.ForgottenQuestion`).
- `compact.go:185-188` says a session pays for a compaction once per Trigger-worth of new conversation
  rather than once per Run. What it is sure to have grown by is trigger - keep - 1 replayable steps less
  the marker's surplus (`Cost.CompactionsApart`, `Cost.NoSurplusIff`), and an outgrown session, all of
  whose later rows carry the window as their index, can compact in consecutive Runs
  (`Witness.CompactionsInARow`).
- `compact.go:408-411` sizes a chunk to fit one call beside its instruction, and `compact.go:498-500` a
  group to fit one merge call. The line that numbers a chunk is not charged (`Calls.PartCallFitsIff`),
  nor is what the label of a part takes beyond four tokens, from ten parts on (`Calls.MergeCallFitsIff`).
- `pool/pool.go:66-70` says eviction never tears down a sandbox a Run is using. Cleanup indeed never
  overlaps a Run, but a Run can check out an entry that has just been cleaned
  (`Pool.StaleCheckout`, `Pool.CheckoutFreshIff`).
- `streamer.go:14-16` holds back 32 bytes so that a partial marker is not ambiguous; white space
  before the marker counts against those bytes (`Streamer.ChunkInvariantIff`). The parser accepts a
  marker line with blanks after it, or further down, that the streamer does not recognise; what was
  heard is then not the answer (`Listener.AnswerHeardIff`).

## Model

| member | source | states |
|---|---|---|
| `Run.RunSession` | run.go:207-613 | for any model, sandbox and store behaviour: an unknown session changes nothing; otherwise exactly one Finalize, no other session's rows touched, and the rows, result and tokens are those of the step-by-step specification `Whole` |
| `Run.Runner.constructor` | run.go:229-249 | a Run starts with its counters at zero and its index at the number of steps it loaded |
| `Run.Runner.WriteStep` | run.go:247-261 | the redacted step is appended if the store accepts it; the index advances in 32 bits either way |
| `Run.Runner.Finalize` | run.go:274-297 | one Finalize call, and a result whose status, tokens, step count and redacted text are the Run's |
| `Run.Runner.Fail` | run.go:428-435 | one error step, then the only Finalize |
| `Run.Runner.Answer` | run.go:619-636 | one response step with the given text, which becomes the final text |
| `Run.Runner.Execute` | run.go:470-540 | the script's step before its result's; the next script receives this value unless this one threw |
| `Run.Runner.RunScript` | run.go:470-597 | a script that calls answer() ends the Run; otherwise reply and output join the history |
| `Run.Runner.RunTurn` | run.go:357-598 | the branches of one turn in their order: cancelled, failed stream, empty reply, DONE, no script, script; the reply's tokens counted before it is read |
| `Run.Runner.CompactHistory` | run.go:754-812 | failed or empty compactions leave the history alone, tokens count on every path, a checkpoint is written only for a non-empty summary that covers something |
| `Run.Runner.Start` | run.go:263-347 | user step first, then the sandbox, then the history the turns start from |
| `Run.Runner.Turns` | run.go:600-613 | turns until one ends the Run, or one error step when the iterations are used up |
| `Trace.TraceGrammar` | run.go:264-613 | every Run's attempted steps are user, at most one checkpoint, (script result)*, then the response exactly when completed, or one error step, or nothing |
| `Trace.TraceKinds` | run.go:264-613 | the same as positions: which kind stands where, and the last step of a completed Run is its final text |
| `Trace.StreamsBounded` | run.go:24-32 | at most maxIterations Stream calls, at most two retries of empty replies, max_iterations only when every iteration went on scripts and retries, and so a bound on the steps |
| `Usage.TokensCharged` | run.go:445-446 | the token totals of every Run, in 32 bits, are the compactor's, if the sandbox was built and there is one, plus the sum over the replies of its streams, prompt and completion each on its own side |
| `Usage.BlankRepliesRetried` | run.go:458-472 | the first two blank replies of a Run are asked again, whatever comes between them; the third ends it with the error for an empty response |
| `Usage.RunsAsItsTurnsSay` | run.go:357-613 | every Run read off its environment alone: it runs the scripts of its replies in order, every iteration but the last was a blank reply or a script that did not answer, and it stops with the last one's answer or error as its last step, at the limit, or cancelled |
| `Usage.HistoryStartsFrom` | run.go:754-812 | a compaction that failed, or left nothing of something, is ignored and the turns start from the whole history; otherwise from what it made of it, the question last |
| `Usage.OutputShown` | run.go:496-540 | what stands in the trace for a script, and is read by the model, is its logs and not the value it returned, or its error with the hint |
| `Usage.ResultReports` | run.go:274-297 | the result and the one summary for Finalize agree; the final text is the last step's, redacted, when the Run was completed, as persisted, and empty otherwise |
| `Usage.SettingsKept` | run.go:174-194 | New keeps the Redactor and every positive limit, and puts 80 steps and 20 iterations for the others |
| `Trace.FailuresKeepTheCarry` | run.go:496-520 | a script gets the value of the last one that did not throw, however many threw since |
| `Trace.StepsCountIff` | run.go:274-297 | the reported step count is what this Run persisted if and only if it loaded no steps and no append failed |
| `Trace.WrittenAll` | run.go:247-261 | when no append fails the rows are the steps, numbered on from the number loaded |
| `Trace.ReplayRetellsTheRun` | history.go:105-118 | replaying a Run's rows gives its conversation: the question, each reply cut down to its script with the output, the answer |
| `Trace.RetoldReadsTheSame` | history.go:111-112 | a reply and its replayed form hold the same script |
| `Store.StepStore.Append` | agentloopmem/stores.go:120-126 | the row goes to the end of its session's rows, other sessions unchanged |
| `Store.StepStore.LastN` | agentloopmem/stores.go:128-142 | the last n rows, oldest first, all of them for a non-positive n |
| `Store.AppendThenLastN` | agentloopmem/stores.go:120-142 | a window read after an append is the shorter old window and the new row |
| `History.ReplayedAs` | history.go:98-119 | questions and answers are replayed as they are, scripts in their fence, outputs under their label; checkpoints, errors and other kinds are not |
| `History.RehydrateHistory` | history.go:39-77 | messages and their step indices are those of the last usable checkpoint followed by the kept steps of the window |
| `History.FindLastCheckpoint` | history.go:84-97 | the most recent summary with text and a readable marker |
| `History.ReplaySnoc` | history.go:56-75 | replaying one more step adds at most that step's turn |
| `History.ReplayAppend` | history.go:56-75 | replay distributes over the trace |
| `Session.AddedRows` | run.go:240-261 | a Run adds its steps in order, numbered from the number it loaded |
| `Secrets.RowsRedacted` | run.go:247-261 | nothing is persisted past the Redactor, in any session, whatever the model, the scripts, the compactor and the store do |
| `Secrets.NoSecretPersisted` | run.go:247-297 | with placeholders that pass the check of `Redact.RedactionCompleteIff`, no row of any session and no final text holds a registered value |
| `Secrets.OthersUntouched` | redact/redact.go:118-126 | a text that holds none of them is persisted as it is |
| `Session.FaithfulIff` | run.go:236-261 | for every store behaviour: every row's index is its position if and only if in each Run, with d rows of the session not loaded, the first d appends failed and none succeeded after a later failure |
| `Session.FaithfulWindowIff` | run.go:245-245 | in particular, when the store never fails, if and only if the session fitted its window before the last Run |
| `Witness.LossyNotFaithful` | run.go:256-259 | a session of one call, within its window, in which one lost append breaks the indices |
| `Session.WrittenInStep` | run.go:247-261 | the same of one Run's rows |
| `Replays.MaskIff` | history.go:56-75 | filtering by a marker shows what a selection of rows shows if and only if it keeps the same replayable rows |
| `Replays.FilterIff` | history.go:62-64 | for every trace, a marker stands for a position if and only if it tells the replayable rows from there on from those before |
| `Session.RetainNames` | run.go:822-832 | the step a checkpoint names is the one from which replaying the whole session gives exactly the retained messages, also when the history began with an older summary or everything was folded |
| `Session.CheckpointFaithfulIff` | history.go:39-77 | where indices are positions, the condition is that no replayable row from the marker on has left the window; otherwise the rehydration is shorter |
| `Checkpoints.RetainedRows` | run.go:822-832 | the messages retained from number r on are those of the rows whose own entry has that number or a later one |
| `Checkpoints.NoneExtra` | history.go:62-64 | once a row owed has left the window the marker keeps no row that is not owed |
| `Checkpoints.CheckpointReplayIff` | history.go:39-77 | for every trace, rehydration after a checkpoint equals summary, retained messages and all later turns if and only if the checkpoint is in the window and its marker selects exactly those rows, none of them lost |
| `Checkpoints.AddedUsable` | run.go:783-798 | every usable row a Run adds is the checkpoint of its own compaction, and there is one at most, whatever the store does |
| `Checkpoints.CheckpointReplay` | run.go:783-798 | the same over any calls, any store behaviour and any later Runs without a new checkpoint |
| `Session.WellMarkedAfter` | run.go:783-798 | in every session whose indices are positions, no checkpoint resumes later than its own row, whatever the compactor |
| `Session.AddedCheckpoint` | run.go:264-345 | the user's message is a Run's first row, its checkpoint, if any, the second, and there is no other |
| `Conversation.NextHistory` | history.go:39-77 | within the window, the next Run rehydrates this Run's history (or the checkpoint and what it retained) followed by this Run's own turns |
| `Conversation.ConversationContinues` | run.go:336-345 | with a summarizing compactor and no Redactor, what the next Run rehydrates is the very conversation this Run's model had, each reply cut down to its script |
| `Conversation.CheckpointFaithful` | run.go:783-798 | over sessions whose indices are positions: the summary, the retained messages and everything since are replayed if and only if nothing retained has left the window |
| `Conversation.CheckpointUsable` | history.go:84-97 | a Run's checkpoint can be used later exactly when one was written and its text is not blank as persisted |
| `Conversation.WindowAmortised` | compact.go:185-188 | over a session within its window, checkpoints * (trigger - keep - 1) plus the messages the next Run replays never exceeds the replayable steps so far |
| `Cost.CompactionsApart` | compact.go:185-188 | over any calls, store failures and outgrown windows included: when a history is over the trigger again, the replayable steps since the last compaction plus the marker's surplus, the loaded rows it keeps without owing them, make at least trigger - keep - 1 |
| `Cost.NoSurplusIff` | history.go:62-64 | that surplus is zero if and only if the checkpoint has left the window, or no loaded replayable row that is not owed has an index at or past its marker |
| `Cost.HistoryBound` | history.go:39-77 | for every trace, a history rehydrated after a checkpoint is no longer than the summary, what was retained, what is new and the surplus |
| `Cost.CompactionAmortised` | compact.go:235-288 | over any calls and any store behaviour: checkpoints * (trigger - keep - 1) never exceeds the replayable steps so far plus the surpluses its compactions found |
| `Cost.WellMarkedSession` | run.go:783-798 | where indices are positions no checkpoint resumes later than its own row, whatever the store and the compactor did |
| `Cost.FaithfulAmortised` | compact.go:185-188 | where indices are positions, however long the session, new steps alone pay for every checkpoint |
| `Cost.FaithfulApart` | compact.go:185-188 | and between one compaction and the next lie trigger - keep - 1 of them |
| `Witness.CompactionsInARow` | compact.go:185-188 | an outgrown session whose store never fails and that compacts in two consecutive Runs with a single new replayable step between them |
| `Cost.ProfileAmortised` | profile.go:102-129 | the settings of every positive context window give that bound in every session, and it asks for at least half a trigger of steps per checkpoint |
| `Conversation.QuestionReplayedIff` | history.go:62-64 | the rehydration after a compacting Run replays all that Run's own turns if and only if the marker is at most the index of its question, and is shorter otherwise |
| `Conversation.FoldingAllForgetsTheQuestion` | run.go:822-832 | in an outgrown session, folding everything makes the marker pass the question's index |
| `Witness.ForgottenQuestion` | run.go:822-832 | four calls with window 2 and trigger 1 after which the next rehydration holds the checkpoint and not the last question |
| `Orphan.ApartIff` | history.go:56-75 | for every trace, two of the replayed messages are results in a row if and only if two replayed rows that read as results have no replayed row between them |
| `Orphan.RehydratedAlternatesIff` | history.go:39-77 | the same of the whole rehydrated history, its summary included |
| `Orphan.EveryCutSafeIff` | compact.go:290-312 | for every trace, all cuts of the history keep each retained result its script if and only if no two loaded rows adjoin, save two that open a history without a checkpoint |
| `Orphan.OrphansIff` | compact.go:290-312 | the same over any calls, any user messages and any store behaviour |
| `Orphan.OrphansOfCallsIff` | compact.go:290-312 | said of the calls, with a store that never fails, no checkpoint loaded and any Redactor: all cuts are safe if and only if no loaded question carrying the label was asked right after a Run that ended without an answer on a script or on such a question, the opening two messages aside |
| `Orphan.NoOrphanedOutput` | compact.go:290-312 | so over any Runs whose messages lack the label no compaction retains a result whose script it folded away, as long as appends succeed and indices are positions or no checkpoint is loaded |
| `Orphan.LabelledMessageOrphans` | compact.go:310-312 | a user message with the label makes the tail open with a real result whose script is gone |
| `Witness.LabelledQuestionOrphans` | compact.go:310-312 | a session of two calls, the second with a labelled message, whose next cut orphans a result |
| `Witness.LostAppendOrphans` | run.go:256-259 | a session of one call in which the append of a script fails, with the same outcome |
| `Witness.OutgrownResultsOrphan` | history.go:62-64 | a session of five calls with window 6 and no failing store, with the same outcome |
| `Witness.SessionsReachCheckpoints` | run.go:783-798 | two calls whose scripts run and answer, with trigger 3 and keep 1, meet the hypotheses of the session theorems together, and the second writes a usable checkpoint |
| `Witness.LimitsResolve` | compact.go:276-288 | the bounds of these sessions are ones a SummarizingCompactor resolves to, and their compactions its outcomes |
| `Compact.SummarizingCompactor.Compact` | compact.go:235-268 | short histories unchanged; a failed summary leaves the history and is billed; otherwise summary message plus tail, with the split as the retained index, billed for every call made |
| `Compact.BoundsSane` | compact.go:276-288 | resolved keep is below resolved trigger, and zero only for a trigger of one |
| `Compact.SummaryContentBytes` | compact.go:254-258 | the persisted summary is never blank and never reads as an execution result |
| `Compact.SummarizedIsTidy` | compact.go:328-392 | whatever summarizing returns is trimmed and not empty |
| `Compact.SplitBounds` | compact.go:241-245 | a history over the trigger always has something to fold |
| `Compact.NeverLonger` | compact.go:247-268 | a compacted history is never longer and has at most keep + 2 messages |
| `Compact.ShrinksIff` | compact.go:272-288 | every history over the trigger gets strictly shorter if and only if keep + 2 <= trigger or nothing is kept |
| `Messages.ResultIff` | compact.go:310-312 | a message reads as an execution result if and only if it is a user's and begins with "Execution result:" |
| `Compact.TailOpensWithResultIff` | compact.go:297-308 | the tail opens with a result if and only if two results stand at the cut |
| `Summarize.Attempt.constructor` | compact.go:248-250 | an attempt starts with no calls charged |
| `Summarize.Attempt.Call` | compact.go:374-392 | one call, its tokens charged whether or not it succeeded, its answer trimmed, blank counting as failure |
| `Summarize.Attempt.CallAll` | compact.go:328-372 | calls in order up to the first failure |
| `Summarize.Attempt.FoldParts` | compact.go:353-372 | the rounds of the specification and exactly as many calls |
| `Summarize.Attempt.Summarize` | compact.go:328-347 | the chunks cover the messages; the calls send the chunks in order with the compact instruction, then merges with the other; result and number of calls are the specification's, the usage the sum over the calls |
| `Summarize.ChunkBodyMeans` | compact.go:334-343 | a chunk's call holds the whole chunk, behind a line with its number and their count when there are several |
| `Summarize.EveryMessageAsked` | compact.go:322-326 | after a successful summary every message was whole in the text of some call with the compact instruction, or with its middle elided if it alone exceeds a call |
| `Summarize.FoldCallBound` | compact.go:353-372 | at most one call per part and round |
| `Summarize.SummarizeCallBound` | compact.go:328-372 | a compaction makes at most six calls per chunk, on success and on error |
| `Summarize.FoldConverges` | compact.go:353-372 | if k >= 2 summaries always fit one call, up to k^5 parts fold to one within the rounds |
| `Summarize.FoldRunsAway` | compact.go:124-128 | if no two summaries fit one call, every round is paid in full and nothing merges |
| `Summarize.SomeModelRunsAway` | compact.go:124-128 | for every allowance there is such a model, and two of its summaries cost ten calls and fail |
| `Summarize.JoinKeepsEveryPart` | compact.go:526-535 | every partial summary of a group is in the text of its merge call |
| `Summarize.RoundCarriesEveryPart` | compact.go:353-372 | the calls of a round between them carry every partial summary |
| `Calls.AllowanceLeavesRoom` | compact.go:408-431 | the allowance is its floor of 1000 tokens, or the most that fits one call beside the larger instruction |
| `Calls.PartCallFitsIff` | compact.go:338-343 | with the default estimator, an allowance above its floor and an instruction no shorter than the other, the call of one chunk of several stays within its room if and only if the chunk and the line before it together do, so a full chunk never does |
| `Calls.MergeCallFitsIff` | compact.go:498-535 | with the default estimator a merge call is never dearer than its group was counted if and only if the group has at most nine parts |
| `Fold.GroupParts` | compact.go:504-521 | the loop computes the greedy grouping |
| `Fold.GreedyValid` | compact.go:504-521 | greedy groups are a partition in order into non-empty groups, each a single part or within the allowance |
| `Fold.GroupingOptimal` | compact.go:504-521 | no other such partition has fewer groups |
| `Fold.RoundShrinksIff` | compact.go:504-521 | a round leaves fewer parts than it was given if and only if two neighbouring parts fit one call |
| `Fold.RoundShrinks` | compact.go:504-521 | if k parts always fit together, n parts leave at most n/k rounded up: one fewer than are left would make less than n/k |
| `Fold.RoundStalls` | compact.go:504-521 | if no two parts fit together, no group has two |
| `Transcript.ElideMiddle` | compact.go:545-563 | the binary search returns the text itself if it fits, else the elision keeping the most bytes that fits, for every estimator monotone in length; an elision is a beginning and an ending of the text, as even as they can be, around the count of the rest |
| `Transcript.ElideLengthGrows` | compact.go:565-573 | keeping more bytes never shortens the elision, although its count may lose a digit |
| `Transcript.ElisionBoundedIff` | compact.go:545-563 | the result is within the limit if and only if the text or the bare marker is |
| `Transcript.TranscriptChunks` | compact.go:443-477 | chunks of whole messages that cover the history in order |
| `Transcript.RenderHolds` | compact.go:478-485 | a rendered message opens with its role, or "execution result" for one, and holds the whole content before a blank line |
| `Transcript.RenderInjective` | compact.go:478-485 | no two messages are rendered alike, for roles without a bracket that do not read as that label |
| `Transcript.ChunksRefineTranscript` | compact.go:443-496 | with no oversized message the chunks end to end are the plain transcript |
| `Transcript.ChunkWithinAllowance` | compact.go:443-477 | for a subadditive estimator every chunk fits one call, an oversized message's if its marker does |
| `Messages.EstimateTokensBehaves` | budget.go:61-66 | the default estimator is monotone in length, subadditive, and a token for every four bytes rounded up |
| `Budget.FitMessages` | budget.go:186-253 | the two loops compute the specified trim |
| `Budget.FitKeeps` | budget.go:186-253 | for every budget and request the first and last message are sent; what nothing was dropped from is sent as it is; otherwise a marker with the count stands second, before the latest messages in order; fewer than three messages and disabled budgets drop nothing, and the latter report nothing |
| `Budget.ReserveHonoured` | budget.go:113-153 | an explicit reserve is the completion's cap as it is, the default an eighth of the window within 512 and 4096 and at most half; prompt and completion share the window |
| `Budget.WalkBackEarliest` | budget.go:214-222 | the backward walk stops at the earliest suffix that fits with the marker charged |
| `Budget.FitSound` | budget.go:186-253 | the request costs at most the reported tokens, so prompt plus completion cap stay within the window unless Over |
| `Budget.FitTight` | budget.go:186-253 | what is kept is the input, or system prompt, marker and the earliest suffix that fits, moved past results only |
| `Budget.FitOverIff` | budget.go:186-253 | Over exactly when system prompt, marker and last message alone do not fit, and then nothing else is kept |
| `Budget.FitUntouchedIff` | budget.go:186-253 | nothing is dropped exactly when everything fits with the marker charged and the first message is no result |
| `Profiles.ProfileConsistent` | profile.go:102-129 | for every positive window: a positive allowance, keep + 2 <= trigger <= history window, and a summarizing budget that is the loop's |
| `Profiles.ProfileTight` | profile.go:102-129 | each limit is the largest its rule allows between floor and ceiling: messages of 250 tokens in the allowance, a third of them kept, an eighth of the allowance in bytes |
| `Profiles.ProfileMonotone` | profile.go:102-129 | a larger window never derives a smaller limit |
| `Profiles.LogsLeaveRoomIff` | profile.go:102-129 | one turn's logs stay within half the prompt if and only if the allowance is at least 512 tokens |
| `Profiles.Apply` | profile.go:155-171 | a disabled profile writes nothing; otherwise budget, window and only the loop's own compactor are overwritten |
| `Pool.NextKeepsInv` | pool/pool.go:87-189 | every atomic step of every thread keeps the pool invariant |
| `Pool.Reachable` | pool/pool.go:87-244 | so every state of every interleaving satisfies it |
| `Pool.CleanedAtMostOnce` | pool/pool.go:98-102 | no entry is cleaned twice, and an entry in the map is not cleaned |
| `Pool.NothingLeaks` | pool/pool.go:130-244 | once all threads are done, every entry ever built is cached or cleaned exactly once, race losers included |
| `Sweeps.SweepTakes` | pool/pool.go:176-244 | Close empties the map; Evict takes its session's entry and no other; what leaves the map is queued for cleanup and what stays keeps its entry |
| `Sweeps.SweepCleans` | pool/pool.go:176-244 | once a sweep has returned, every entry it took off the map has been cleaned exactly once: for Close all that were cached, for Evict its session's |
| `Sweeps.SweepCleansOnly` | pool/pool.go:176-244 | and it cleans nothing but what left the map when it started |
| `Sweeps.OwnSession` | pool/pool.go:130-158 | a Run only ever uses an entry built for its own session |
| `Sweeps.CachedIsReused` | pool/pool.go:130-134 | a Build whose session is cached when it looks builds nothing and uses no other entry; one whose session is not goes to the delegate |
| `Pool.MutualExclusion` | pool/pool.go:64-93 | nobody else holds an entry a Run uses |
| `Pool.CleanupNeverDuringRun` | pool/pool.go:98-102 | the step that runs an entry's cleanup is never taken while a Run has the entry |
| `Pool.RunSeesItsOwnContext` | pool/context.go:30-40 | while a Run has an entry its context and callback are that Run's |
| `Pool.HeldStaysAsItIs` | pool/pool.go:87-93 | and no step of another thread changes the entry |
| `Pool.CheckoutFreshIff` | pool/pool.go:131-134 | a checkout gets an uncleaned entry if and only if it is still in the map or waits in an evictor's queue |
| `Pool.StaleCheckout` | pool/pool.go:131-134 | a schedule of two Builds and an Evict that hands out a cleaned sandbox |
| `Pool.NoDeadlock` | pool/pool.go:136-174 | while a thread is unfinished some thread can step: a race loser's locked entry is never waited for |
| `Pool.Terminates` | pool/pool.go:130-244 | every interleaving of n threads has at most n * (3n + 8) steps |
| `Redact.Redactor.constructor` | redact/redact.go:57-72 | mismatched lists give no entries; otherwise a stable longest-first permutation of the pairs with a non-empty value |
| `Redact.Redactor.Add` | redact/redact.go:61-68 | empty values are skipped, others take their place in the order |
| `Redact.Redactor.Insert` | redact/redact.go:69-71 | one step of the stable sort |
| `Redact.Redactor.Apply` | redact/redact.go:118-126 | the loop is the composition of the replacements |
| `Redact.RedactionCompleteIff` | redact/redact.go:107-126 | when no value can overlap the edge of a placeholder, no text leaks a value if and only if each placeholder, put through the entries after it, is clean |
| `Redact.RedactionComplete` | redact/redact.go:107-126 | in particular when no value occurs in a placeholder |
| `Redact.FirstOccurrence` | redact/redact.go:118-126 | a replacement leaves the text up to the first occurrence, puts the placeholder for it and goes on behind it |
| `Redact.BracketedWellFormed` | redact/redact.go:74-95 | values without brackets cannot overlap the edge of a bracketed placeholder |
| `Redact.LoneEntryIff` | redact/redact.go:107-126 | for one value of any form, brackets included, and any placeholder it does not hold: no text leaks it if and only if it is not in the placeholder, no ending of the placeholder opens it, and every beginning that closes it is out of reach because the value is found earlier |
| `Redact.BracketInValueLeaks` | redact/redact.go:107-126 | a value that opens with a bracket reappears around its own placeholder |
| `Streamer.ResponseStreamer.constructor` | streamer.go:27-29 | nothing buffered, nothing decided, nothing sent |
| `Streamer.ResponseStreamer.EmitFinal` | streamer.go:59-64 | non-empty text reaches a listener, and only a listener |
| `Streamer.ResponseStreamer.OnChunk` | streamer.go:31-57 | one step of the streaming automaton; without a listener nothing is sent |
| `Streamer.ResponseStreamer.Receive` | streamer.go:31-57 | a whole stream is the automaton over its chunks |
| `Streamer.ChunkInvariantIff` | streamer.go:31-57 | what is sent depends on the reply alone, however it is cut, if and only if its leading white space is within the limit for its shape (29, 27, 26 or 32 bytes) |
| `Streamer.EarlyVerdict` | streamer.go:31-57 | within the limit, deciding on any prefix is deciding as on the whole |
| `Streamer.LateMarker` | streamer.go:45-50 | beyond it a cut after 32 bytes sends something else |
| `Streamer.MarkersLiteral` | streamer.go:35-50 | the three markers the streamer looks for, byte for byte |
| `Streamer.IntendedOf` | streamer.go:31-57 | of leading white space and a text: nothing of one that begins with three backticks, what follows DONE and its line end, otherwise the text, unless it is short and has no newline |
| `Listener.DoneFirst` | parser.go:27-43 | a reply that opens with the streamer's marker has it for the parser too, and the same answer after it |
| `Listener.AnswerHeardIff` | streamer.go:31-57 | for every cut into chunks, the listener has heard the Run's answer up to outer white space if and only if the reply opens with the marker, or has none and is neither fenced nor short, or says nothing at all |
| `Listener.FinalTextHeardIff` | run.go:475-489 | said of the loop: a turn streaming such a reply completes the Run, and what was heard is its final text under exactly that condition |
| `Listener.ScriptUnheardIff` | streamer.go:11-13 | nothing is heard of a script turn if and only if the reply opens with its fence |
| `Scanner.EndOfString` | sandbox/sandbox.go:661-672 | the closing quote where the automaton leaves the literal, or -1 |
| `Scanner.HasTopLevelSemicolon` | sandbox/sandbox.go:609-656 | the index-jumping scan decides what the byte-at-a-time automaton decides, on every line |
| `Scanner.EndOfBlockRuns` | sandbox/sandbox.go:631-636 | jumping to the comment's close is running the automaton through it |
| `Scanner.SemicolonSeparates` | sandbox/sandbox.go:650-653 | a semicolon at depth zero of code always separates, whatever follows |
| `Scanner.PlainLineIff` | sandbox/sandbox.go:637-655 | a line without quotes and slashes splits if and only if some semicolon stands outside all brackets, round, square and curly, a closing one too many ignored |
| `Scanner.LiteralHides` | sandbox/sandbox.go:621-627 | a literal in any of the three quotes hides what is in it, escapes included; an unclosed one makes the line split |
| `Scanner.BlockHides` | sandbox/sandbox.go:631-636 | a block comment hides what is in it |
| `Scanner.SlashesHide` | sandbox/sandbox.go:628-630 | two slashes in code hide the rest of the line |
| `Scanner.LineCommentHides` | sandbox/sandbox.go:628-630 | what follows a line comment never matters |
| `Parser.FindFromIsPreferred` | parser.go:11-23 | the matcher finds a match exactly when the expression has one, and the leftmost-first one |
| `Fences.ExtractsPreferred` | parser.go:11-23 | over the pieces of the reply: a script is found if and only if the reply reads as fence, "javascript" or "js", white space ending in a newline, body and closing fence, and it is the trimmed body of the preferred reading |
| `Fences.BothLanguages` | parser.go:11-23 | trimmed code without a closing fence comes back out of a fence of either language |
| `Fences.DoneIff` | parser.go:25-43 | the DONE marker is found if and only if the reply is nothing else or a line of its own holds it, indented or not; the answer is what follows the first such line, trimmed |
| `Text.TrimSpaceOf` | parser.go:22-22 | trimming takes the six kinds of single-byte white space off both ends and nothing else |
| `Parser.ExtractedIsClean` | parser.go:17-23 | extracted code is trimmed and holds no newline followed by a fence |
| `Parser.RefenceRoundTripIff` | history.go:111-112 | extracting a re-fenced text gives it back if and only if it is trimmed and has no closing fence |
| `Parser.ExtractRefenceExtract` | history.go:111-112 | so for every reply, re-fencing its script and extracting again gives the script |
| `OpenAPI.NameTable.Dedupe` | ext/openapi_gen.go:243-250 | terminates with the first free candidate and marks it used |
| `OpenAPI.CandidatesRunOut` | ext/openapi_gen.go:243-250 | as long as every candidate so far was taken there are that many names |
| `OpenAPI.CandidateInjective` | ext/openapi_gen.go:243-250 | different suffixes give different names |
| `Text.DecimalReads` | ext/openapi_gen.go:243-250 | a printed number reads back as the number |
| `OpenAPI.SortedKeys` | ext/openapi_gen.go:46-51 | a map's keys sorted byte-wise, each once |
| `OpenAPI.BeforeIff` | ext/openapi_gen.go:46-51 | the order is Go's: a beginning stands before the whole, otherwise the smaller byte where they first differ decides |
| `OpenAPI.CollectOperations` | ext/openapi_gen.go:42-76 | every allowed operation once, by path and method, each named by the first free candidate at its place |
| `OpenAPI.NamesDistinct` | ext/openapi_gen.go:79-86 | no two functions share a name, and each is an identifier |
| `OpenAPI.NamedByItsId` | ext/openapi_gen.go:79-86 | an operation whose id is an identifier that no earlier function took is named by it, and if it is taken by it and a number from two on |
| `OpenAPI.IdentBytes` | ext/openapi_gen.go:196-205 | identifiers are letters, digits and underscores that do not begin with a digit |
| `OpenAPI.SanitizeRuns` | ext/openapi_gen.go:196-205 | a run of other bytes becomes one underscore, and a leading digit gets one before it |
| `OpenAPI.GenerationDeterministic` | ext/openapi_gen.go:38-76 | two listings of the same document agree entry by entry, whatever the map order |
| `OpenAPI.SanitizeIdempotent` | ext/openapi_gen.go:196-205 | sanitizing gives an identifier and leaves one alone |
| `Glob.MatchSegments` | ext/pack_fs_ops.go:353-380 | the result is the verdict of the first way, shortest "**" first, that does not fail; an answer says exactly whether the path splits into runs, one segment per ordinary element and any number per "**" |
| `Glob.DecideIff` | ext/pack_fs_ops.go:358-377 | an error if and only if a malformed element is reached before a way succeeds, success if and only if a way succeeds before a malformed element is reached |
| `Glob.AcceptsIffSomeWay` | ext/pack_fs_ops.go:353-380 | some way succeeds if and only if the path splits so |
| `Glob.MatchPath` | ext/pack_fs_ops.go:349-351 | the same of the slash-separated strings |
| `Glob.SplitJoin` | ext/pack_fs_ops.go:349-351 | splitting on slashes loses nothing |
| `Glob.StarStarCollapses` | ext/pack_fs_ops.go:345-348 | "**" alone accepts every path, and two in a row say no more than one |
| `Glob.PlainPatternIff` | ext/pack_fs_ops.go:353-380 | a pattern without "**" matches the paths of as many segments, one by one |
| `Glob.StarStarIff` | ext/pack_fs_ops.go:358-368 | "**" in front lets the rest match any ending of the path |

## Left out

- The prompt of a turn: its reply is arbitrary, so composing the system prompt, eliding stale scripts, the args digest and the model's name do not enter; bounding the prompt is `Budget.FitMessages` on any message list. Leaving elision and the digest out omits easy members only.
- Events, tracing spans, durations, DataBytesCarried and the session's data snapshots: reporting that no decision depends on.
- What sanitizes a script's error text and picks its retry hint: both texts are parameters.
- Default wording of the compaction and merge instructions: parameters of the compactor.
- JSON of checkpoint markers, taken to round-trip; an absent, an unreadable and a decoded marker are kept apart.
- The SQL stores and the session store beyond Finalize: rows are kept by the in-memory store, whose appends may fail at will in the Run model.
- Run.RunSession: a panic inside a script or a callback is not modelled, nor the wall-clock timeout, which is one way for an iteration to find its context cancelled.
- Session.FaithfulIff: for settings with which no index can leave int32 (window plus twice the iterations below 2^31).
- Conversation.CheckpointFaithful: the readable form of the condition, for sessions whose indices are positions; Checkpoints.CheckpointReplay has none of these hypotheses.
- Conversation.ConversationContinues: for Runs whose appends all succeed; a step that was not persisted cannot be replayed.
- Orphan.NoOrphanedOutput: needs the summaries of a compactor that labels them as SummarizingCompactor does, and no Redactor, which could rewrite a message into one with the label; Orphan.OrphansIff has none of these hypotheses.
- Runs of one session that overlap: rows are numbered and the question persisted before the sandbox is waited for (run.go:236-268), so two such Runs can interleave their rows; the session theorems take Runs one after another.
- Redact.RedactionCompleteIff: for several values some of which can overlap the edge of a placeholder; Redact.LoneEntryIff is exact for one value of any form.
- Orphan.OrphansOfCallsIff: for sessions without a failing store or a loaded checkpoint; Orphan.OrphansIff, on the rows, has neither hypothesis.
- Cost.FaithfulApart: for sessions whose indices are positions and below 2^31; Cost.CompactionsApart has neither hypothesis.
- The pool's methods as code with locks: each critical section is one atomic step of a state machine over values, so how one method's statements hold the map lock is not captured; a thread performs one operation, idleness is a free choice of the sweep, and the delegate may fail.
- ApplyBytes on JSON event arguments: escaping makes it another statement; on plain bytes it is the loop of Redactor.Apply.
- FromSecrets: builds bracketed placeholders from a map in no fixed order; the redaction theorems hold for every order.
- White space beyond single bytes in TrimSpace and invalid UTF-8: texts are sequences of byte values.
- The regular expression engine: the two expressions are matched by explicit matchers, the fenced one proved leftmost-first.
- path.Match on one segment: a parameter that may also report a malformed pattern.
- The wording deriveName gives an operation without an id: a parameter of the operation, sanitized like any other.
- Sizes of Go's int, 64 bits where lengths and token counts live, are taken as unbounded; int32 step indices and usage counters wrap as in the source.
- LLM and fetch clients, the JavaScript runtime, browser drivers, policies, retries, evaluation and command line: foreign calls or single-branch decisions.
