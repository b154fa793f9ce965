# Agent harness: a verified model

A Dafny model of the parts of the agent harness whose code decides something difficult, with proofs of what they promise.

| part | modules |
|---|---|
| JSON repair pipeline | `Bytes`, `JsonSyntax`, `FixJson`, `JsonDamage`, `FixJsonTokens`, `FixJsonRepair`, `FixJsonTheorems`, `JsonScan`, `FixJsonExact`, `FixJsonCuts`, `FixJsonMerge`, `FixJsonEdges` |
| Messages, token estimate, context compaction, context manager | `Messages`, `MessageLaws`, `Pairing`, `Compaction`, `CompactionTheorems`, `CompactionLaws`, `ContextManager` |
| Engine: history, requests, run loop, child engines, parallel tasks | `EngineHistory`, `EngineEffects`, `RequestMessages`, `EngineRun`, `EngineEndings`, `Delegation`, `Coordinator` |
| Reverse RPC | `PendingRequests`, `PendingOrigins` |
| SDKs: line framing, event streams, browser loop | `LineFraming`, `StreamHandoff`, `BrowserLoop` |

`dafny verify dfyconfig.toml` checks the whole project. Lemmas switch automatic induction off, so that every proof stands on its
body and takes the same few steps on every solver seed.

**How the JSON proofs go.** `JsonSyntax` has the grammar of sections 2 to 7 of RFC 8259 as derivation trees that keep every
byte of white space, extended by constructors for the damage. A tree prints to tokens, tokens print to bytes. For each pass
there is one lemma on tokens (`FixJsonTokens`); the composition of the passes is one function on trees (`FixJsonRepair`); the
theorems (`FixJsonTheorems`, `FixJsonCuts`) speak of bytes alone. Each pass is a loop, proved equal to a recursive function.
For texts of any kind `JsonScan` has a scanner that is proved to accept exactly the grammar; its state at the end of a text
says whether closing the brackets gives JSON (`FixJsonExact`).

**How the engine proofs go.** `WellPaired` says that a history consists of plain messages and of turns with calls that are
followed at once by their results. The cascade, the manager and every step of the engine keep it. The run loop is proved
against a description of the first turn that stops it, over an arbitrary trace of step outcomes.

**How the concurrent parts are modelled.** Each is a state machine whose steps are the pieces of code that nothing interleaves
with (a locked section, a channel operation, the code between two `await`s). Lemmas on all runs say what every interleaving
keeps; the methods of a small class compute each step in place.

**How the specification functions are pinned.** A loop or method is proved equal to a function, and laws say what that function
means without computing it the same way: by round trips, by the places of things in the text or the history, by where a result
came from, or by what comes out of each single case (`FixJsonMerge`, `FixJsonEdges`, `MessageLaws`, `CompactionLaws`,
`EngineEffects`, `EngineEndings`, `PendingOrigins`, and the laws at the end of the smaller modules).

**Where the code and its comments differ**, the model follows the code:

- `internal/llm/fixjson.go:9-10` promises the input back when the repaired text cannot be parsed. The code returns the
  repaired text (`FixJsonTheorems.CommaAtTheEnd`, `FixJsonExact.StringAtTheEnd`). `FixJsonExact.PromiseExact` says when the
  promise holds for a JSON text that stops at any byte, `FixJsonCuts.CutPromise` for damaged texts that stop between elements,
  and `FixJsonExact.FixExact` when any input at all comes out as JSON.
- `internal/engine/loop_type.go:51` and `internal/engine/engine.go:521` say that an error of the goal judge lets the run
  continue. The code ends the run (`internal/engine/engine.go:524-525`): `EngineRun.JudgedExact`, `EngineRun.JudgeErrorInput`.
- `internal/engine/engine.go:376-377` speaks of successful skill calls. The code takes every tool message without the prefix
  `Error:` for a success, also "Error executing tool", "Permission denied" and "Blocked by guard", and no message with it, also
  when the tool succeeded with such a text: `EngineHistory.SuccessAgrees`, `EngineHistory.Engine.GuardExact`,
  `EngineHistory.Engine.GuardMistaken`.

## Model

| member | source | states |
|---|---|---|
| `FixJsonTheorems.FixJsonRepairs` | internal/llm/fixjson.go:11-21 | For every JSON value, every cut of its text after a complete element or an opening bracket, any stray commas, `{null}`s, noise in strings and single quotes: the pipeline returns exactly the JSON text that the damaged text stands for, with the missing brackets appended |
| `FixJsonTheorems.FixJsonRepairsFenced` | internal/llm/fixjson.go:11-43 | The same inside a Markdown code block, whatever the language tag and the text after the block |
| `FixJsonTheorems.StripFence` | internal/llm/fixjson.go:26-43 | Unwrapping gives the trimmed inside of the first block and drops what follows it |
| `FixJsonTheorems.GoodUnchanged` | internal/llm/fixjson.go:11-21 | A JSON text comes back byte for byte if and only if it does not contain `{null}`, and is JSON afterwards either way |
| `FixJsonTheorems.GoodRepaired` | internal/llm/fixjson.go:11-21 | On a JSON text of any depth all passes but the one for `{null}` are the identity; the result is the same document with cleaned strings |
| `FixJsonTheorems.FixJsonIdempotent` | internal/llm/fixjson.go:11-21 | On repairable texts a second repair changes nothing if and only if the first result has no `{null}` left in a string |
| `FixJsonCuts.CutExact` | internal/llm/fixjson.go:17-18 | A damaged text that stops between elements becomes JSON if and only if it stops after an element or an opening bracket, and not after a comma, a key or a colon |
| `FixJsonCuts.CutPromise` | internal/llm/fixjson.go:9-21 | A damaged text that stops between elements in an open container comes out as JSON or as it was if and only if it stops after an element or an opening bracket; on one line that is the result of the pipeline |
| `FixJsonCuts.StrayNotJson` | internal/llm/fixjson.go:115-153 | For all byte strings: a text from which the comma pass drops a comma is no JSON text, so the pass only removes damage |
| `FixJsonCuts.CutRepaired` | internal/llm/fixjson.go:17-18 | What the passes make of it in each case: the clean text, with the comma, key or colon kept, and the closing brackets behind |
| `JsonScan.AcceptsExactly` | internal/llm/fixjson.go:161 | A scanner that reads bytes from left to right with a stack of open containers accepts exactly the texts of the JSON grammar; it defines what it means for a text to stop well |
| `FixJsonExact.ClosedExact` | internal/llm/fixjson.go:200-246 | For all byte strings: closing the brackets gives JSON if and only if the scan does not get stuck and the text stops after a complete value or an opening bracket |
| `FixJsonExact.FixExact` | internal/llm/fixjson.go:11-21 | For all inputs: the pipeline gives JSON if and only if the text in front of the bracket pass stops well, or its lines are merged |
| `FixJsonExact.PrefixViable` | internal/llm/fixjson.go:199-246 | Every start of every JSON text, cut at any byte, is viable: the scanner does not get stuck |
| `FixJsonExact.TruncatedExact` | internal/llm/fixjson.go:11-21 | A viable text comes through the passes with its brackets closed and `{null}` replaced in strings; that is JSON if and only if it stops well, and the text itself if and only if no bracket is open and there is no `{null}` |
| `FixJsonExact.PromiseExact` | internal/llm/fixjson.go:9-21 | What the comment promises always, JSON or the input back, holds for a JSON text that stops early, at any byte, if and only if it stops well, or no bracket is open and there is no `{null}`, or its lines are merged |
| `FixJsonExact.OneLine` | internal/llm/fixjson.go:166-169 | An input on one line leaves nothing to merge |
| `FixJsonExact.StringAtTheEnd` | internal/llm/fixjson.go:200-246 | Concrete input: `["ab` becomes `["ab]`, which is neither JSON nor the input |
| `FixJsonExact.GoodAnyDepth` | internal/llm/fixjson.go:11-21 | A JSON text of any depth stays JSON, and unchanged if and only if it has no `{null}`, unless lines are merged |
| `FixJsonExact.TwiceExact` | internal/llm/fixjson.go:46-48 | On one-line JSON texts a second repair changes nothing if and only if the text does not contain `{{null}}` |
| `FixJsonExact.TwiceInput` | internal/llm/fixjson.go:46-48 | Concrete input: the string `"{{null}}"`, which a second repair changes |
| `FixJsonTheorems.CommaAtTheEnd` | internal/llm/fixjson.go:17-18 | Concrete input: `[1,` becomes `[1,]`, which is neither JSON nor the input, and a second call makes it `[1]` |
| `FixJsonTheorems.CloseBalances` | internal/llm/fixjson.go:200-246 | For all byte strings: closing only appends closing brackets, and leaves no bracket open if and only if none was open or the text does not end inside a string |
| `FixJsonTheorems.NullsFixed` | internal/llm/fixjson.go:46-48 | The null pass never lengthens a text and changes it if and only if `{null}` occurs |
| `FixJsonTheorems.MergeLast` | internal/llm/fixjson.go:171-186 | A merged key has the value of the last line with that key, no other key appears, and nothing is merged exactly when no line holds an object |
| `FixJsonMerge.MergeLaw` | internal/llm/fixjson.go:158-197 | In terms of the text, the line parser and the printer alone: a text that is valid or on one line stays; from any other comes the printed union of the objects on its lines, each key with the value from the last line that has it, unless that union is empty or cannot be printed |
| `FixJsonMerge.MergedUnion` | internal/llm/fixjson.go:171-186 | The loop over the lines gives that union |
| `FixJsonMerge.MergeTwo` | internal/llm/fixjson.go:155-157 | Two objects on two lines give one with the keys of both |
| `FixJsonEdges.OpenBlock` | internal/llm/fixjson.go:36-42 | A block that is never closed goes on to the end of the text |
| `FixJsonEdges.NoBlock` | internal/llm/fixjson.go:27-35 | A text without a fence, or whose fence has no end of line, stays as it is |
| `FixJsonEdges.ControlDropped` | internal/llm/fixjson.go:51-78 | Which control characters go out of a string |
| `FixJsonEdges.ControlEscaped` | internal/llm/fixjson.go:51-78 | Behind a backslash they stay |
| `FixJsonEdges.MisfitOverlooked` | internal/llm/fixjson.go:227-230 | A closing bracket that does not fit the last open one is overlooked |
| `FixJsonEdges.DoubleComma` | internal/llm/fixjson.go:140-149 | Of two commas in a row one pass drops one |
| `FixJsonTheorems.SplitJoin` | internal/llm/fixjson.go:166 | The lines put together again are the text, and no line holds a newline |
| `FixJsonTokens.NullPass` | internal/llm/fixjson.go:46-48 | On any printed text the null pass rewrites exactly the `{null}` values and the `{null}`s inside strings |
| `FixJsonTokens.ControlPass` | internal/llm/fixjson.go:51-78 | On any printed text the control pass strips noise in strings and touches nothing else |
| `FixJsonTokens.QuotePass` | internal/llm/fixjson.go:81-111 | On any printed text between single quotes the quote pass gives the text between double quotes, and texts between double quotes stay |
| `FixJsonTokens.CommaTokens` | internal/llm/fixjson.go:115-153 | On any printed text the comma pass drops exactly the commas in front of a closing bracket and no byte of a string |
| `FixJsonTokens.BracketTokens` | internal/llm/fixjson.go:200-232 | The scan ends outside strings with exactly the closing brackets on the stack that the tokens leave due |
| `FixJsonRepair.RepairPartial` | internal/llm/fixjson.go:11-21 | Repairing the tokens of a damaged tree gives the tokens of the clean tree |
| `FixJsonRepair.PartialDue` | internal/llm/fixjson.go:200-232 | The brackets due after a cut are those of the containers that are open there |
| `JsonSyntax.CompleteText` | internal/llm/fixjson.go:234-246 | A cut text followed by the closing brackets in reverse order is the text of its completion |
| `JsonDamage.CompletePristine` | internal/llm/fixjson.go:11-21 | The clean tree is a derivation of the JSON grammar and nests as deep as the damaged one |
| `FixJson.FixJson` | internal/llm/fixjson.go:11-21 | The seven passes in their order, proved against the specification functions that the lemmas are about |
| `FixJson.FixControlChars` | internal/llm/fixjson.go:51-78 | The loop with its two flags computes the specified pass |
| `FixJson.FixSingleQuotes` | internal/llm/fixjson.go:81-111 | The loop computes the specified pass, and leaves texts with a double quote alone |
| `FixJson.FixTrailingCommas` | internal/llm/fixjson.go:115-153 | The loop with its look-ahead computes the specified pass |
| `FixJson.FixUnmatchedBrackets` | internal/llm/fixjson.go:200-246 | The stack loop and the loop that empties the stack compute the specified pass |
| `FixJson.MergeJsonObjects` | internal/llm/fixjson.go:158-197 | The loop over the lines computes the specified merge, with every early return |
| `Messages.EstimateTextTokens` | internal/context/estimate.go:42-62 | The loop computes the weight in twentieths, rounded down, at least 1 for text that is not empty |
| `Messages.EstimateMessage` | internal/context/estimate.go:15-34 | The loop over the calls computes the estimate of a message |
| `Messages.EstimateConcat` | internal/context/estimate.go:42-62 | The estimate of two texts together differs from the sum of the two estimates by at most 1 |
| `Messages.EstimateMonotone` | internal/context/estimate.go:42-62 | A longer text never has a smaller estimate than its beginning |
| `MessageLaws.EstimateExact` | internal/context/estimate.go:42-62 | The estimate by the numbers of wide and other characters: 1.5 and 0.35 tokens, rounded down, at least 1 |
| `MessageLaws.NarrowBelow` | internal/context/estimate.go:65-70 | Characters below the first range of those scripts are not wide |
| `MessageLaws.WideSamples` | internal/context/estimate.go:65-70 | A character of each of the four scripts is |
| `MessageLaws.EstimateParts` | internal/context/estimate.go:15-34 | Four tokens for a message and for each call, and the estimates of their texts |
| `MessageLaws.DecimalRoundTrip` | internal/context/compaction.go:73 | Numbers in texts are written in digits without leading zeros |
| `MessageLaws.ContainsExact` | internal/context/compaction.go:69 | A text contains another exactly when that other stands somewhere in it |
| `MessageLaws.MessageParts` | internal/engine/message.go:10-58 | What the messages of each kind carry |
| `Compaction.BudgetTrim` | internal/context/compaction.go:56-82 | The loop over a copied slice trims exactly the long tool messages that carry no mark |
| `Compaction.ObservationMask` | internal/context/compaction.go:89-114 | The loop masks exactly the tool messages before the last `keepLast`; a negative `keepLast` runs out of bounds |
| `Compaction.FindToolCallAssistant` | internal/context/compaction.go:140-149 | The backward scan finds the last assistant message that makes the call, or -1 |
| `Compaction.AdjustKeepBoundary` | internal/context/compaction.go:118-136 | The forward scan from the original cut gives the lowest call of a kept result |
| `Compaction.Snip` | internal/context/compaction.go:153-169 | Cuts at the boundary and puts a marker with the number of removed messages in front |
| `Compaction.Compact` | internal/context/compaction.go:180-209 | Summarizes what lies before the boundary; an error leaves no result; without a summarizer nothing happens |
| `Compaction.RunCompaction` | internal/context/compaction.go:213-234 | The stages in order, each only while the usage is above the target; with a negative `keepLast` only the first stage can end well |
| `CompactionLaws.TrimLaw` | internal/context/compaction.go:56-82 | Which messages are trimmed, and what is left of them: the beginning and a mark with the old length |
| `CompactionLaws.MaskLaw` | internal/context/compaction.go:89-114 | Which messages are masked, and that all others, and everything but the text, stay |
| `CompactionLaws.SnipLaw` | internal/context/compaction.go:153-178 | The marker of a cut, and what stands behind it |
| `CompactionLaws.SummarizeLaw` | internal/context/compaction.go:180-209 | The summarizer gets the messages before the boundary in order; its text stands in front of the others, its error is the result |
| `CompactionLaws.CascadeFirst` | internal/context/compaction.go:213-234 | The cascade stops at the first stage that brings the usage below the target, and not before |
| `CompactionLaws.KeptTail` | internal/context/compaction.go:213-234 | Whatever the cascade does, the last `keepLast` messages come through as trimmed |
| `CompactionTheorems.BoundaryExact` | internal/context/compaction.go:118-136 | For all histories: the boundary lies above every place that keeps all calls, and is such a place if and only if no earlier result has its call below all calls of kept results with one of these in between |
| `CompactionTheorems.BoundaryGreatest` | internal/context/compaction.go:118-136 | For block-structured histories the boundary is the greatest place, not above the original cut, at which no kept result has lost its call |
| `CompactionTheorems.BoundaryInterleaved` | internal/context/compaction.go:126-134 | Concrete history of interleaved calls for which the single pass separates a result from its call |
| `CompactionTheorems.BoundaryPaired` | internal/context/compaction.go:118-136 | In a well-paired history the boundary does not stand before a tool result, and lies at most one turn below the original cut |
| `CompactionTheorems.CascadePaired` | internal/context/compaction.go:213-234 | The whole cascade keeps well-paired histories well-paired |
| `CompactionTheorems.BoundaryAfterCut` | internal/context/compaction.go:118-136 | In every history: after a cut the boundary lies right behind the marker |
| `CompactionTheorems.SnipThenSummarize` | internal/context/compaction.go:153-209 | In every history: after snip has removed something the summarizer gets exactly the marker and the kept messages stay; if snip removes nothing, nothing changes |
| `CompactionTheorems.CascadeStages` | internal/context/compaction.go:213-234 | How the cascade can end, for every history: trimmed, masked, a marker and the kept messages, an error, or out of bounds exactly when `keepLast` is negative and trimming was not enough |
| `CompactionTheorems.CascadeSize` | internal/context/compaction.go:213-234 | A cascade that cuts leaves at most `keepLast` + 1 messages and the calls of one turn |
| `CompactionTheorems.CascadeSingle` | internal/context/compaction.go:213-234 | With one call a turn it leaves at most `keepLast` + 2 messages, and again one call a turn |
| `CompactionTheorems.CutTokens` | internal/context/compaction.go:153-234 | A cascade that cuts leaves exactly the tokens of the marker and of the kept messages as masked, and at most those they had before with a trim marker, a mask and one token for each |
| `CompactionTheorems.TrimGrowth` | internal/context/compaction.go:56-82 | Trimming raises the estimate of a message by at most that of the marker and 1 |
| `CompactionTheorems.TrimIdempotent` | internal/context/compaction.go:56-82 | Trimming twice is trimming once |
| `CompactionTheorems.MaskIdempotent` | internal/context/compaction.go:89-114 | Masking twice is masking once |
| `ContextManager.Manager.Add` | internal/context/manager.go:44-52 | Appends one message with its estimate; an event fires exactly when the exceeded flag changes |
| `ContextManager.Manager.ListMessages` | internal/context/manager.go:55-64 | Copies the history and changes nothing |
| `ContextManager.Manager.SetReserved` | internal/context/manager.go:103-108 | Sets the reserved tokens, keeps the entries, and checks the threshold |
| `ContextManager.Manager.Compact` | internal/context/manager.go:125-139 | Below the threshold, and when the cascade fails or panics, nothing changes; otherwise the entries are those of the cascade |
| `ContextManager.CompactWhen` | internal/context/manager.go:125-139 | A compaction is due exactly from the threshold on |
| `ContextManager.Manager.ReplaceEntries` | internal/context/manager.go:143-150 | Counts the tokens anew, so that the cached total is the sum again |
| `ContextManager.Manager.Inject` | internal/context/manager.go:162-182 | Prepends, replaces or appends; nothing injected changes nothing at all |
| `ContextManager.Manager.Fork` | internal/context/manager.go:155-157 | A fresh manager with the same limit and threshold, no messages and no events |
| `ContextManager.Manager.CheckThreshold` | internal/context/manager.go:186-217 | Events alternate from Exceeded on, each tells the truth about its ratio, and the flag is right whenever there are a limit and an observer |
| `ContextManager.CascadeEstimated` | internal/context/compaction.go:213-234 | Whatever the cascade returns, each entry carries the estimate of its own message |
| `Pairing.AppendPaired` | internal/engine/engine.go:728 | One more message keeps a history well-paired if and only if it is plain: the model must make no calls in a chat step |
| `Pairing.PairedMeaning` | internal/context/compaction.go:140-149 | In a well-paired history every tool result belongs to a call in a turn before it, with only results of that turn in between |
| `Pairing.PairedConcat` | internal/context/manager.go:162-182 | Two well-paired histories make one |
| `Pairing.PairedCut` | internal/context/compaction.go:153-169 | A well-paired history cut anywhere but before a tool result leaves two well-paired histories |
| `EngineHistory.Engine.Drive` | internal/engine/engine.go:423-903 | A script of inputs, steps, delegations, coordinations, compactions and injections makes of the history exactly what the fold over the script says |
| `EngineHistory.Engine.ScriptPaired` | internal/engine/engine.go:423-903 | Whatever the script: a well-paired history stays well-paired |
| `EngineHistory.Engine.ScriptOnce` | internal/engine/engine.go:760-766 | With inputs and steps alone no skill is called twice, with what the scans take for success, between two user messages |
| `EngineHistory.Engine.ScriptSingle` | internal/engine/engine.go:588-622 | The engine makes one call a turn, so that after any script a compaction that shortens the history leaves at most `keepLast` + 2 messages |
| `EngineHistory.Engine.GuardExact` | internal/engine/engine.go:376-419 | After a call of a skill the next call of it goes to chat if and only if the outcome was a refusal, a crash, or a success whose text lacks the prefix `Error:`, and no verification failed |
| `EngineHistory.Engine.GuardMistaken` | internal/engine/engine.go:376-419 | Concrete outcomes: a skill that crashed is not called again, a skill that worked and answered `Error: none found` is |
| `EngineHistory.SuccessAgrees` | internal/engine/engine.go:396 | The prefix agrees with the real outcome if and only if the call was not refused, did not crash, and did not succeed with a text that starts with `Error:` |
| `EngineHistory.CountsExact` | internal/engine/engine.go:396 | Which outcomes the scans take for success |
| `EngineEffects.ChatEffect` | internal/engine/engine.go:692-736 | An answer stands at the end of the history, a blocked one is replaced by the safe answer, a failed step leaves the history as it is |
| `EngineEffects.CallEffect` | internal/engine/engine.go:810-889 | A refused, failed or successful call is written with its arguments and its result, with the text of each case; a stopped one is not written |
| `EngineEffects.VerificationEffect` | internal/engine/engine.go:893-903 | A failed verification is put to the model as a user message |
| `EngineEffects.CallReasons` | internal/engine/engine.go:773-849 | Which outcome gives which reason |
| `EngineEffects.DelegationEffect` | internal/engine/delegate.go:99-110 | A delegation or coordination is written as one call with its result |
| `EngineEffects.NothingSaidIsLost` | internal/engine/engine.go:423-903 | As long as nothing is compacted or replaced, everything that the user and the model have said stands in the history, in order |
| `EngineEffects.InjectionEffect` | internal/context/manager.go:162-182 | Where injected messages go |
| `EngineHistory.Engine.Apply` | internal/engine/engine.go:588-795 | What one operation makes of the history, and what a compaction came to |
| `EngineHistory.Engine.ToolStep` | internal/engine/engine.go:739-795 | The messages that a step appends, in order, and its reason, for every way through it |
| `EngineHistory.Engine.RunTool` | internal/engine/engine.go:773-849 | Not found, denied, stopped, blocked, failed, used, not verified: messages and reason in each case |
| `EngineHistory.Engine.ExecuteAndRecord` | internal/engine/engine.go:853-889 | The pair of call and result, with the error texts |
| `EngineHistory.Engine.RunVerification` | internal/engine/engine.go:893-903 | A failure is reported to the model as a user message |
| `EngineHistory.Engine.ChatStep` | internal/engine/engine.go:692-736 | The answer, or the safe answer when the output is blocked, or nothing |
| `EngineHistory.Engine.AddPair` | internal/engine/delegate.go:99-110 | A sub-agent's or the coordinator's result enters the history as one call with its result |
| `EngineHistory.Engine.StepOnce` | internal/engine/engine.go:760-766 | A step on a well-paired history keeps it so and keeps the promise about every skill |
| `EngineHistory.ToolAlreadySucceeded` | internal/engine/engine.go:378-419 | The two backward scans find a successful pair since the last user message exactly when there is one by ids |
| `EngineHistory.ScanExact` | internal/engine/engine.go:378-419 | With fresh call ids the scans decide exactly whether the skill succeeded since the last user message |
| `EngineHistory.ScanComplete` | internal/engine/engine.go:378-419 | The scans miss no success, even when ids are used twice |
| `EngineHistory.PairOnce` | internal/engine/engine.go:763-766 | A new call of a skill is no second success as long as the scans found none |
| `RequestMessages.BuildMessages` | internal/engine/engine.go:988-1017 | The loop inserts the reminder before the last user message, or at the end when there is none |
| `RequestMessages.FindLastUserIndex` | internal/engine/engine.go:1037-1044 | The last user message, or the length of the history |
| `RequestMessages.RequestPaired` | internal/engine/engine.go:988-1017 | The list sent to the model splits no pair, and without system prompt and reminder it is the history |
| `RequestMessages.RequestLayout` | internal/engine/engine.go:988-1017 | The system prompt first, the reminder right before the last user message or at the end, and the history around it |
| `RequestMessages.ReminderDue` | internal/engine/engine.go:1021-1033 | A reminder is due exactly when one is registered and the history has reached its threshold |
| `EngineRun.Run` | internal/engine/engine.go:423-574 | The result, turns, usage and reason are those of the first turn of the trace that stops the run, or of the turn limit |
| `EngineRun.OutcomeUnique` | internal/engine/engine.go:457-574 | That describes exactly one outcome |
| `EngineEndings.FatalEnds` | internal/engine/engine.go:490-492 | A run ends as a failed step exactly when the step fails with a fatal error or one that only the model could mend |
| `EngineEndings.UserEnds` | internal/engine/engine.go:482-489 | A run asks for the user exactly when the step fails in a way the user can mend, with the message and the usage before |
| `EngineEndings.CancelEnds` | internal/engine/engine.go:458-481 | A cancelled context and a cancelled wait end the run; a transient error that may be retried does not |
| `EngineEndings.AnswerEnds` | internal/engine/engine.go:520-542 | A final step ends the run with its text and its reason or the judge's; a verdict of not done lets it go on |
| `EngineEndings.FailureReasons` | internal/engine/engine.go:577-584 | Which reasons count as failures |
| `EngineEndings.FailureEnds` | internal/engine/engine.go:543-559 | Where one failure is enough it ends the run |
| `EngineEndings.LimitEnds` | internal/engine/engine.go:561-573 | At the turn limit the run returns the last text, or says that there was none |
| `EngineEndings.LastTextMeaning` | internal/engine/engine.go:500-503 | The last text is that of the last step with a text |
| `EngineEndings.UsageAdds` | internal/engine/engine.go:496-498 | Successful steps add to each of the three counts, errors to none |
| `EngineRun.RetriesExact` | internal/engine/engine.go:466-494 | For every limit: the run gives up on retries in a turn exactly when that turn is one transient error in a row more than may be retried; a negative limit counts as 0 |
| `EngineRun.FailuresExact` | internal/engine/engine.go:543-559 | For every limit: the run stops for failures exactly when the permitted number of turns failed since the last one that was neither a failure nor transient; a limit below 1 counts as 1 |
| `EngineRun.JudgedExact` | internal/engine/engine.go:520-532 | A judged turn goes on if and only if the verdict is that the goal has not been reached |
| `EngineRun.JudgeErrorEnds` | internal/engine/engine.go:524-525 | Whatever came before, a run whose judge fails on an answer ends with that answer |
| `EngineRun.JudgeErrorInput` | internal/engine/engine.go:524-525 | A concrete such run |
| `EngineRun.FailuresStep` | internal/engine/engine.go:543-559 | Transient errors leave the number of failures alone, failures add one, everything else resets it |
| `EngineRun.TransientsMeaning` | internal/engine/engine.go:470-494 | The retry counter is the number of transient errors right before the turn |
| `EngineRun.TurnsReported` | internal/engine/engine.go:534-573 | A result reports its own turn, never more than allowed, and the usage of all successful steps up to it |
| `Delegation.Run` | internal/engine/engine.go:457-560 | The mutually recursive run ends and costs what the cost function says |
| `Delegation.RunBounded` | internal/engine/engine.go:457-560 | Every run nests engines at most one deep and makes at most maxTurns times the bound of a turn in completer calls, and one worktree a turn |
| `Delegation.BoundIs` | internal/engine/engine.go:457-560 | In closed form that is maxTurns * (1 + tasks * 2 * maxTurns) |
| `Delegation.BoundReached` | internal/engine/engine.go:457-560 | There is a run that makes exactly as many completer calls as the bound allows |
| `Delegation.PlainCost` | internal/engine/engine.go:746-795 | Two completer calls for an answer, one for a tool, one for the chat without tools |
| `Delegation.DelegationCost` | internal/engine/delegate.go:20-97 | A delegation costs the router's call and the child's run, and a worktree when it gets one |
| `Delegation.ForkBounded` | internal/engine/delegate.go:96-97 | A child makes at most two completer calls a turn and nests no further |
| `Delegation.Fork` | internal/engine/engine.go:189-205 | A child can start no children |
| `Delegation.ToolStep` | internal/engine/engine.go:739-766 | The cost of a turn for every choice of the router |
| `Delegation.DelegateStep` | internal/engine/delegate.go:20-61 | The cost of one child, or none when the arguments are wrong |
| `Delegation.WorktreeStep` | internal/engine/delegate.go:65-92 | The child runs with or without a worktree |
| `Delegation.RunDelegateChild` | internal/engine/delegate.go:96-97 | A child run, one level deeper |
| `Delegation.CoordinateStep` | internal/engine/coordinator.go:32-77 | The cost of one child for each task |
| `PendingRequests.Safety` | internal/rpc/pending.go:22-58 | In every interleaving: each channel is sent on or closed at most once and not both, a response reaches only the request with its id, and a response under way finds its channel open and empty |
| `PendingRequests.NoLostWakeup` | internal/rpc/server.go:162-191 | A waiting request can finish, or its response is under way, or it is still in the table, and only one of these |
| `PendingRequests.ShutdownWakes` | internal/rpc/server.go:69-75 | The shutdown can always run and wakes exactly the requests in the table |
| `PendingRequests.LateRequest` | internal/rpc/server.go:177-190 | In every run: a request that registers after the last shutdown is never cancelled; until a response comes it stays in the table |
| `PendingOrigins.RunOrigins` | internal/rpc/pending.go:22-58 | In every run a request that got a response got one that had come in, unchanged; one that was cancelled was in the table at a shutdown; timeouts and failed writes are its own |
| `PendingOrigins.Answered` | internal/rpc/server.go:115-124 | A response to a request that waits in the table reaches it, as it came |
| `PendingOrigins.Ended` | internal/rpc/server.go:177-190 | A shutdown cancels a waiting request, an expired one has timed out, a failed write is one |
| `PendingOrigins.ResultStays` | internal/rpc/server.go:182-190 | A result never changes |
| `PendingRequests.StepInv` | internal/rpc/pending.go:22-58 | Every step of sender, reader, shutdown and timeout keeps the invariant |
| `PendingRequests.RunInv` | internal/rpc/pending.go:22-58 | So it holds in every state of every run |
| `PendingRequests.Table.NextRequestId` | internal/rpc/server.go:244-249 | Ids count up from 1 |
| `PendingRequests.Table.RegisterRequest` | internal/rpc/pending.go:23-29 | A new channel enters the table |
| `PendingRequests.Table.TakePending` | internal/rpc/pending.go:33-42 | The locked half of resolving: unknown ids and missing ones are ignored |
| `PendingRequests.Table.SendResponse` | internal/rpc/pending.go:44-46 | The half outside the lock |
| `PendingRequests.Table.CancelPending` | internal/rpc/pending.go:50-58 | The loop over the map closes every channel in the table once and empties it |
| `Coordinator.ParallelIsSequential` | internal/engine/coordinator.go:82-118 | Under every schedule at most as many children run as the semaphore has places, no slot is written twice, there is no deadlock, and in the end the slots hold what a sequential map would give |
| `Coordinator.StepInv` | internal/engine/coordinator.go:97-113 | Every step of a goroutine keeps the counts of semaphore and wait group and brings the end one step nearer |
| `Coordinator.Progress` | internal/engine/coordinator.go:93-116 | As long as the wait group waits, some goroutine can take a step |
| `Coordinator.AggregateResults` | internal/engine/coordinator.go:122-148 | The loop builds the header and the text of each task within its budget |
| `Coordinator.BudgetKept` | internal/engine/coordinator.go:126-141 | With a budget of at least one character a task the kept text is within it in total; with less, nothing is cut |
| `Coordinator.CapacityMeaning` | internal/engine/coordinator.go:86-93 | As many places as configured, 10 by default, and never more than tasks |
| `Coordinator.KeptMeaning` | internal/engine/coordinator.go:137-141 | The beginning of a response, as long as the share of its task allows |
| `Coordinator.TaskTextMeaning` | internal/engine/coordinator.go:131-145 | The text of a failed, a whole and a cut result |
| `Coordinator.TextsInOrder` | internal/engine/coordinator.go:124-147 | The parts stand in the order of the tasks behind a header |
| `Coordinator.ShareMeaning` | internal/engine/coordinator.go:126-129 | Each task gets an equal share |
| `LineFraming.ConsumeReadStream` | sdk/swift/Sources/AIAgent/JsonRpc.swift:359-371 | For every chunking: exactly the non-empty lines of the whole stream, in order, and the unfinished rest held back |
| `LineFraming.DispatchLines` | sdk/swift/Sources/AIAgent/JsonRpc.swift:363-368 | The inner loop ends and takes the complete lines out of the buffer |
| `LineFraming.ChunksDoNotMatter` | sdk/swift/Sources/AIAgent/JsonRpc.swift:359-371 | Two chunkings of the same bytes leave the reader in the same state for all that follows |
| `LineFraming.LinesConcat` | sdk/swift/Sources/AIAgent/JsonRpc.swift:361-363 | What was held back goes in front of the next chunk |
| `LineFraming.FrameRoundTrip` | sdk/swift/Sources/AIAgent/JsonRpc.swift:359-371 | Messages written one a line are read back as they were, with an unfinished one held back |
| `LineFraming.LinesMeaning` | sdk/swift/Sources/AIAgent/JsonRpc.swift:363-368 | Dispatched lines are not empty and hold no newline, and nothing but newlines is lost |
| `StreamHandoff.NothingLost` | sdk/js/src/client.ts:261-328 | In every interleaving: yielded, in-flight and queued events are the pushed ones in order; a consumer waits only when it has them all; the stream ends only when all are delivered |
| `StreamHandoff.EndReached` | sdk/js/src/client.ts:299-323 | Once the run is done the consumer reaches the end, or the run's error, in a fixed number of its own steps, with every event delivered |
| `StreamHandoff.StepInv` | sdk/js/src/client.ts:269-318 | Every step keeps the invariant |
| `StreamHandoff.Stream.PushEvent` | sdk/js/src/client.ts:269-277 | Hands the event to a waiting consumer or queues it |
| `StreamHandoff.Stream.MarkDone` | sdk/js/src/client.ts:299-306 | Wakes a waiting consumer |
| `StreamHandoff.Stream.PullEvent` | sdk/js/src/client.ts:309-318 | Takes from the queue before it looks at the flag |
| `BrowserLoop.AgentLoop.Run` | sdk/js-browser/src/engine/loop.ts:225-260 | The outcome is that of the first turn of the trace that stops the run, or of the turn limit, and the successes are those of the trace up to there |
| `BrowserLoop.RulesKept` | sdk/js-browser/src/engine/loop.ts:276-399 | With tools registered, in every run a call is repeated only once enough different tools have succeeded, and no tool succeeds four times in a row after that |
| `BrowserLoop.CompletedEnough` | sdk/js-browser/src/engine/loop.ts:358-399 | With tools registered a run that completes has seen the required number of different tools succeed |
| `BrowserLoop.AnswersExact` | sdk/js-browser/src/engine/loop.ts:280-399 | When a turn ends in an answer, in terms of the calls that have succeeded |
| `BrowserLoop.TriesExact` | sdk/js-browser/src/engine/loop.ts:401-531 | What becomes of a call that is tried, and that it counts whatever the verifiers say |
| `BrowserLoop.TurnedDown` | sdk/js-browser/src/engine/loop.ts:330-395 | While tools are missing, a failed router is asked again, and a repetition or no call is turned down |
| `BrowserLoop.StopReasons` | sdk/js-browser/src/engine/loop.ts:225-255 | Which reasons stop a run at a limit of one |
| `BrowserLoop.SignatureMeaning` | sdk/js-browser/src/engine/loop.ts:366-371 | Two calls of a tool are the same exactly when their arguments are |
| `BrowserLoop.FailuresExact` | sdk/js-browser/src/engine/loop.ts:240-255 | A run stops for failures exactly at the last of the permitted number of failures in a row |
| `BrowserLoop.AgentLoop.Step` | sdk/js-browser/src/engine/loop.ts:276-399 | The reason of a step and what it adds to the successes, by what has succeeded so far |
| `BrowserLoop.AgentLoop.ExecuteTool` | sdk/js-browser/src/engine/loop.ts:401-531 | A success is one call of an existing tool that was allowed and did not fail |
| `BrowserLoop.AgentLoop.RecordSuccess` | sdk/js-browser/src/engine/loop.ts:494-503 | The sets, the last tool and the streak say what the sequence of successes says |
| `BrowserLoop.NoFourInARow` | sdk/js-browser/src/engine/loop.ts:288-305 | With at most one required tool no tool succeeds four times in a row |
| `BrowserLoop.AppendRepeat` | sdk/js-browser/src/engine/loop.ts:366-384 | A call that is new, or made once enough tools have succeeded, keeps the rule on repetition |
| `BrowserLoop.AppendFour` | sdk/js-browser/src/engine/loop.ts:288-305 | A call outside a streak of three, or made before enough tools have succeeded, keeps the rule on streaks |

## Left out

- I/O and foreign calls: HTTP, SSE and stdio transports, subprocesses, MCP, git worktrees, files, logging, time, backoff and
  jitter. Model, tools, guards, verifiers, judge and summarizer are arbitrary parameters.
- `json.Valid`, `json.Unmarshal` and `json.Marshal`: parameters of the pipeline. `json.Valid` is taken to accept exactly the
  grammar up to Go's nesting limit of 10000; the parser of one line and the order of merged keys are arbitrary.
- FixJSON on other damage, such as noise right after a backslash in a string, code blocks that are never closed, and two stray
  commas in a row: which JSON text comes out is not stated, only whether one does (`FixJsonExact.FixExact`).
- FixJsonExact.PromiseExact: is about starts of undamaged JSON texts; for damaged texts that stop inside a string, a number or a
  literal there is `FixJsonExact.FixExact`, whose condition is on the text in front of the bracket pass.
- Messages.EstimateTextTokens: weights are exact twentieths instead of floating-point sums; usage ratios are exact real numbers.
- Compaction.BudgetTrim: texts are sequences of characters, so a cut in the middle of an encoded character is not modelled, and
  lengths are in characters.
- Messages: the characters taken for Chinese, Japanese or Korean are the ranges of one Unicode version.
- Compaction.Snip: `keepLast` is assumed not to be negative, and likewise in the other stages that the cascade reaches only then.
- EngineHistory.Engine.ScriptPaired: chat answers make no tool calls, because the chat request offers none; `Pairing.AppendPaired`
  shows that exactly this is needed. Call ids are not empty, and injected messages are well-paired.
- EngineHistory.ScanExact: assumes fresh call ids, and `EngineHistory.Engine.GuardExact` a new one; the ids of the code are random.
- EngineHistory: `%q` escapes special characters in a tool name, the model only puts quotation marks around it; results of
  sub-agents are arbitrary texts, and wrong arguments give the same reason as right ones.
- EngineHistory.Engine.AddPair: a call's arguments are the text that the message carries; that the code writes them as a JSON
  string is not modelled.
- RequestMessages: prompt sections and their token estimate, which can be stale when a dynamic section changes.
- EngineRun.Run: step callbacks and status events; the steps themselves are a trace, and their effect on the history is
  `EngineHistory`.
- Delegation.Run: counts completer calls of router and chat, one for each; calls of the summarizer and of a judge, and retries
  inside the client, are not counted. Token usage of children does not enter the parent's, as in the code.
- Delegation.CoordinateStep: runs the children one after the other, which `Coordinator.ParallelIsSequential` justifies.
- ContextManager.Manager: the mutex, and what observers do; events are recorded in a ghost sequence.
- PendingRequests.Table: memory is interleaved step by step; the select of a waiting sender picks arbitrarily between its channel
  and its timeout. Writing the request is one step that succeeds or fails. Parsing of messages and the other branches of
  dispatch are not part of this model.
- StreamHandoff.Stream: the run that settles and the consumer that is resumed are steps of the state machine only; user
  callbacks, and a run that is refused because another is in progress, are not modelled.
- LineFraming.ConsumeReadStream: chunks come as one finite sequence; the state after the stream has closed is not modelled.
- BrowserLoop.AgentLoop.Run: the messages that the loop writes, the input guards before the first turn and the events are left
  out; a call's arguments are the text that `JSON.stringify` makes of them.
- Ports of the same code in `sdk/js-browser/src/engine/jsonfix.ts` and `sdk/js-browser/src/agent.ts`, and the Python SDK.
- The permission pipeline, guards, tool search, schema builder, registries, configuration and error tables: each is decided by
  one branch.
- `agent.configure` during `agent.run`: the busy check and the swap of the engine hold different locks.
