# Proofs about the engines in kit/

This project models the concurrent and algorithmic engines of Lina's `kit/` directory in Dafny
and proves what their comments and tests promise. `dafny verify dfyconfig.toml` checks all of it.

The code is Go that changes state step by step, and the model keeps that form. An object whose
methods update its fields is a class with those fields; a loop is a method with a loop; a
goroutine is a program counter whose steps are taken in any order. What such a method computes is
stated by a function or a predicate, and the promises are lemmas about these. What comes from
outside (another writer in the directory, the provider, the agent, the transport, the scheduler,
a clock, an identifier that is fresh) is a choice that nothing restricts, or a parameter.

| files | what they model |
|---|---|
| `Splice`, `Patch`, `PatchGrammar`, `PatchTexts`, `Text` | the patch language: parsing, what its texts mean, placing hunks, planning edits |
| `FileSystem`, `Publication`, `VersionRecord`, `RecordTexts`, `FileWorker`, `FileRequests` | guarded file editing: publication against another writer, versions and their records, undo, what each request leaves |
| `Dispatch`, `DispatchRuns`, `DispatchOutcomes`, `DispatchOverlap` | parallel tool dispatch of one round, and what it reports |
| `Inputs`, `Collect`, `Conversation` | the conversation loop: steering queue, one response, the rounds |
| `TextGuard`, `TextCallStream` | the guard that holds back tool calls written as text |
| `Gregorian`, `Zone`, `Schedule`, `NextInstant`, `Recurrences`, `Frequencies`, `Horizon`, `HorizonLimits`, `Rules`, `RuleTexts`, `Decimal` | schedules: dates, zones, which days recur, the search for the next instant, the parser and what its texts mean |
| `Acp`, `AcpClient` | the Agent Client Protocol multiplexer |
| `Pointer`, `JsonTree`, `SurfaceTree`, `Surface`, `SurfaceFolds` | surface folding, what each operation leaves, the data model and its pointers |
| `Cursor`, `Lease`, `Registry` | the stream cursor, leases, and dispatch of one tool |
| `Wrappers`, `Sequences` | an option type and three facts about sequences |

## What the proofs found

Some promises do not hold as they are usually read. Each has a concrete input or run and,
beside it, the condition under which the promise does hold.

- The file worker can remove the last link of an inode that was at the destination: the file it
  published itself, when another writer removes it before the staged name is dropped
  (`Publication.WithdrawnFileIsOrphaned`). That is the only case: every inode that existed before
  the call keeps a link, and dropping the staged name loses the inode exactly when nothing else
  links to it (`Publication.Replace`, `Publication.DiscardLoses`).
- A patch can be planned in full and fail half way although nobody else writes: when it adds a
  file on the way to another one that it adds (`FileWorker.NestedPatch`). A planned request
  succeeds exactly when it does not (`FileWorker.Files.Execute`), and can be undone either way.
- The record of a version can be too long for `load` (`VersionRecord.DeepPathFails`). Whether all
  records of a path can be loaded depends only on how long the path and its folder are when JSON
  escapes them, and the limit is exact (`VersionRecord.RecordFits`).
- Calls with one write target can overlap when `Before` denied a call of that target between them
  (`DispatchOverlap.DeniedCallSplitsChain`). Two calls can overlap exactly when neither waits for
  the other through calls that were dispatched (`DispatchOverlap.OverlapExactly`).
- `Next` gives up although a later instant exists when that instant comes from a civil day 400
  years or more after the first day searched, and that is the start for a rule with COUNT
  (`HorizonLimits.CountCutsOff`, `HorizonLimits.LeapDayCutsOff`, for texts that the parser
  accepts: `HorizonLimits.ParseYears`). It finds an instant exactly when
  a later one comes from a day before that (`Horizon.Next`).
- A data message cannot remove a top-level member of a surface, nor replace the whole document:
  the result is decoded into the map that is already there (`Surface.RemovedMemberStays`). The
  data model is what was written exactly when the write keeps every member
  (`Surface.DataAsWritten`).
- A read at array index "01" sees a write at "1" (`JsonTree.LeadingZeroAliases`). Paths that
  diverge either part for good or differ in the spelling of an index, and only the former are
  unaffected by a write (`JsonTree.DivergeCases`, `JsonTree.SetKeepsOthers`, `JsonTree.AliasReads`).
- The pointer "/" is read as the whole document, not as the member with the empty name
  (`Pointer.PartsOfPointer`); for all other pointers section 3 of RFC 6901 is followed.
- One batch of surface messages can succeed where the same messages in two batches fail, because
  it can use a component that the first fold drops (`Surface.DroppedComponentMatters`). Two folds
  succeed exactly when one does and every component of its result was kept by the first fold or
  is put by the second batch (`Surface.FoldSplits`); then both give the same surface
  (`Surface.FoldTwice`).
- Two cancellations of one session, the second between the registration of a request and the
  answer of the read loop, end the connection (`AcpClient.CancelledTwice`). The read loop fails
  exactly when the request is gone from the table or the client's own context has ended
  (`AcpClient.Client.Decide`).

## Model

| member | source | states |
|---|---|---|
| Text.JoinSplit | kit/tools/patch.go:176-212 | joining what was split gives the text back |
| Text.SplitJoin | kit/tools/patch.go:176-212 | splitting what was joined gives the lines back, if no line holds the separator |
| Text.UnlinesLines | kit/tools/patch.go:176-212 | a file survives the round trip through lines if and only if it is empty or ends in a newline |
| Text.LinesUnlines | kit/tools/patch.go:176-212 | lines survive the round trip through a file, which ends in a newline |
| Splice.FindAnchor | kit/tools/patch.go:183-190 | the search starts behind the first line at or after the cursor that equals the anchor; it fails exactly when there is none |
| Splice.FindBlock | kit/tools/patch.go:191-203 | the first exact match at or after the start, at the end of the file for an end-of-file hunk; it fails exactly when there is none |
| Splice.Apply | kit/tools/patch.go:176-208 | an update succeeds exactly when all hunks have places, and its output is the splice at these places |
| Splice.PlacedUnique | kit/tools/patch.go:182-203 | there is at most one way to place the hunks |
| Splice.LocatedUnique | kit/tools/patch.go:183-203 | the place of one hunk is determined by the cursor |
| Splice.PlacedInOrder | kit/tools/patch.go:191-207 | matched blocks read exactly the old lines, lie in order and do not overlap |
| Splice.SplicedLength | kit/tools/patch.go:204-208 | how long the output is after any number of hunks |
| Splice.RestoreSpliced | kit/tools/patch.go:176-212 | replacing every new block by its old block at the recorded places gives the original lines |
| Patch.PlanPatch | kit/tools/patch.go:153-227 | the loop over the edits computes the plan against one snapshot, or fails where an edit does not fit |
| Patch.UpdateUndone | kit/tools/patch.go:172-212 | an update of a newline-terminated file is undone through its text |
| Patch.PlanReadsClaims | kit/tools/patch.go:135-148 | a plan depends on nothing but the paths that PatchPaths lists |
| Patch.PlanIsSequential | kit/tools/patch.go:153-227 | planning against one snapshot equals applying the edits one after another, because every path is claimed once |
| Patch.PlanCoversClaims | kit/tools/patch.go:135-227 | the plan names every claimed path exactly once and nothing else |
| Patch.PlanPathsDistinct | kit/tools/patch.go:58-76 | planned paths are pairwise distinct |
| Patch.ChangesAt | kit/tools/patch.go:213-223 | with distinct paths every change has the last word on its path |
| Patch.ErasesExist | kit/tools/patch.go:167-171 | a plan erases only files that exist |
| PatchGrammar.ParsePatch | kit/tools/patch.go:48-131 | the parser's loop accepts and reads exactly what the recursive grammar does |
| PatchTexts.ParsedExactly | kit/tools/patch.go:48-134 | a text is read as these edits if and only if it spells them in the patch language, written out as a relation: headers, body lines with a space, plus or minus, anchors and end-of-file marks |
| PatchTexts.FilePathExactly | kit/tools/patch.go:36-46 | a path is acceptable if and only if it is relative, path.Clean leaves it alone, it has no special character and no part of it is Git's |
| PatchTexts.GitExactly | kit/tools/patch.go:40-44 | which parts are Git's |
| PatchGrammar.ParseEdit | kit/tools/patch.go:67-128 | one edit of the patch: header, claims, content or hunks |
| PatchGrammar.ParseHunks | kit/tools/patch.go:93-122 | the hunks of an update |
| PatchGrammar.TakeBody | kit/tools/patch.go:99-113 | the longest run of body lines, sorted into old and new lines |
| PatchGrammar.ParsedClaims | kit/tools/patch.go:58-76 | an accepted patch claims no path twice, sources and move targets together, and only acceptable file paths |
| PatchGrammar.EditsPrinted | kit/tools/patch.go:66-130 | parsing printed edits gives the edits back |
| PatchGrammar.ParsedPrintable | kit/tools/patch.go:66-130 | every accepted edit can be printed |
| PatchGrammar.Reprinted | kit/tools/patch.go:48-131 | printing what was parsed and parsing it again changes nothing |
| PatchGrammar.PatchPrinted | kit/tools/patch.go:48-131 | the printed text of a patch is parsed to its edits |
| PatchGrammar.ParsedPlain | kit/tools/patch.go:48-131 | no line of a parsed hunk holds a newline |
| PatchGrammar.ParsedUpdateUndone | kit/tools/patch.go:172-212 | so every update of a patch on a newline-terminated file is undone by putting its old blocks back |
| FileSystem.ApplyKeeps | kit/tools/files.go:425-511 | whatever another writer does to the destination names leaves staged names and recovery slots alone |
| FileSystem.ApplyKeepsTree | kit/tools/files.go:110-140 | whatever another writer does, nothing is a file and a directory and everything is in a directory |
| FileSystem.ActShows | kit/tools/files.go:425-511 | what each act of the other writer shows afterwards at every path |
| FileSystem.World.Descend | kit/tools/files.go:110-140 | the walk to a path stops at a file and makes directories only where it may; left alone, how far it leads and what it makes |
| FileSystem.CaptureMovesLink | kit/tools/files.go:455-457 | capturing by rename moves a link and never removes the last one |
| FileSystem.World.CaptureFile | kit/tools/files.go:455-457 | the rename: it takes whatever inode is at the path at that moment |
| FileSystem.World.LinkInode | kit/tools/files.go:483-491 | a link never replaces an existing name |
| FileSystem.World.Interfere | kit/tools/files.go:425-511 | any number of steps of another writer between any two system calls: writes in place, renames, removals, links and recreations of files, directories made and removed |
| Publication.ReadPath | kit/tools/files.go:174-184 | a path is read exactly when it is no directory, no file is on the way to it, and its content has legal size; without its directory it is absent; the error tells a path that is too large from one out of scope |
| Publication.Open | kit/tools/files.go:439-482 | the destination still shows the planned snapshot, and then the captured inode does; an error that is not "unknown" means nothing was touched |
| Publication.CaptureOld | kit/tools/files.go:449-482 | the captured inode is looked at; if it is not the planned one, its path has a file again unless a call failed or the directory is gone |
| Publication.Settle | kit/tools/files.go:483-511 | the staged inode is linked into an absent destination and both inodes are looked at again |
| Publication.Confirm | kit/tools/files.go:498-511 | nil only after the captured inode read as the old snapshot and the destination as the new one |
| Publication.Exchange | kit/tools/files.go:439-511 | between staging and cleaning up no inode loses its last link |
| Publication.Replace | kit/tools/files.go:425-511 | under every interleaving with another writer: no inode that existed before loses its last link to the worker, only this path is touched, an error that is not "unknown" touched nothing, the staged name is gone unless a call failed, and nil means the whole protocol ran with the right final reads; left alone, it succeeds if and only if the destination is as planned, no file is on the way to it and it is no directory, and then changes only this path; otherwise it says which of these failed |
| Publication.QuietLooks | kit/tools/files.go:455-491 | capture and publication change what one path shows, and nothing else |
| Publication.WithdrawnFileIsOrphaned | kit/tools/files.go:431-438 | the deferred removal of the staged name can take the last link of a published file that another writer removed |
| Publication.DiscardLoses | kit/tools/files.go:431-438 | it does so exactly when no path, slot or other staged name links to that inode |
| FileWorker.Files.Gather | kit/tools/files.go:270-285 | every claimed path is read before anything is planned; the error is that of the first one that cannot be read |
| FileWorker.Files.Prepare | kit/tools/files.go:258-335 | preparing a request changes no file, never reports "unknown" and, left alone, gives the plan that the request has for the directory |
| FileWorker.Files.RetainOne | kit/tools/files.go:338-355 | both versions of a path are saved and its recovery slot is new |
| FileWorker.Files.ReplaceAll | kit/tools/files.go:356-369 | one path after another: a failure touches a prefix only, and after the first path reports "unknown"; left alone, it finishes if and only if no planned file is on the way to another, and the error says what stood in the way |
| FileWorker.Files.Execute | kit/tools/files.go:254-377 | in every run only a prefix of the planned paths is touched and an error that is not "unknown" touched none; left alone, a request succeeds if and only if it has a plan that fits and no planned file is on the way to another, the finished prefix is what the plan says, and every failure has the error of its cause |
| FileRequests.Perform | kit/tools/files.go:254-377 | a request left alone: it succeeds if and only if the path can be read and shows what the revision names (and what the operation needs besides), and then a write leaves the content with the file's mode or 0600, a delete nothing, a restore the version's former snapshot, a patch its edits one after another with every mode; every other path is as before; each receipt tells what its path showed and shows |
| FileRequests.SucceedsExactly | kit/tools/files.go:258-350 | the condition is that the request has a plan that fits and can be carried out |
| FileRequests.LeavesExactly | kit/tools/files.go:286-335 | what a plan that was carried out leaves, request by request |
| FileRequests.RevisionsTell | kit/tools/files.go:57-66 | revisions are equal exactly for equal snapshots |
| FileRequests.ReceiptsTell | kit/tools/files.go:338-355 | receipts and versions hold what each path showed before and after |
| FileWorker.StaysClear | kit/tools/files.go:110-140 | while such plans are carried out or undone, no planned path is blocked |
| FileWorker.NestedAdds | kit/tools/files.go:356-369 | edits that add "a" and "a/b" are planned, fit, and cannot be carried out |
| FileWorker.NestedPatch | kit/tools/files.go:270-369 | so it is for the patch text that adds them |
| FileWorker.PatchIsSequential | kit/tools/files.go:270-297 | an undisturbed patch leaves exactly what applying its edits one after another gives |
| FileWorker.ExecutePatch | kit/tools/files.go:254-377 | an undisturbed patch request succeeds if and only if it has a plan that fits and no planned file is on the way to another; then the contents of all files are the parsed edits applied one after another, and an error that is not "unknown" leaves all contents alone |
| FileWorker.PathRealised | kit/tools/files.go:286-297 | the same for one path, presence and content |
| FileWorker.PlannedPaths | kit/tools/files.go:258-335 | every planned path is an acceptable file path |
| FileWorker.UndoOne | kit/tools/files.go:326-331 | restoring a receipt's version with its After as revision gives its path the former snapshot and changes nothing else; where the path was not reached it changes nothing |
| FileWorker.ExecuteAndUndo | kit/tools/files.go:254-377 | whatever became of a write, delete, patch or restore, restoring every receipt gives every path its former content, mode or absence |
| FileWorker.UndoAll | kit/tools/files.go:326-377 | the same for the receipts of a plan that was carried out for some of its paths |
| VersionRecord.RecordFits | kit/tools/files.go:213-248 | a version record of any two snapshots of legal size can be loaded if and only if its path, as JSON escapes it, and the path of its folder have at most 2795863 characters together |
| VersionRecord.DeepPathFails | kit/tools/files.go:213-248 | a path of n folders is acceptable, and has records that cannot be loaded if and only if n exceeds 698965 |
| FileWorker.PlannedLoads | kit/tools/files.go:213-348 | what a request plans for a path within that limit can be loaded again |
| RecordTexts.PlannedHas | kit/tools/files.go:213-228 | every version that a request retains is saved with the length of its JSON text, content in base64 or null, written out independently |
| RecordTexts.RecordHas | kit/tools/files.go:213-228 | the length of a record is that of its text |
| RecordTexts.EscapedHas | kit/tools/files.go:213-228 | so for the escapes of a string |
| RecordTexts.Base64Length | kit/tools/files.go:213-228 | and for base64 |
| Dispatch.LastBefore | kit/loop/execute.go:117-123 | the last earlier call of a target, or none |
| Dispatch.Chain | kit/loop/execute.go:108-123 | every call waits for the call before it of the same target, whether denied or not |
| Dispatch.Gates | kit/loop/execute.go:124-130 | a gate waits for the last call of the named target |
| Dispatch.Parallel | kit/loop/execute.go:103-107 | between one and eight slots: zero and all larger values give eight, others are kept |
| Dispatch.RoundOf | kit/loop/execute.go:68-130 | what preflight leaves is a well-formed round: chains point back and gates into the round |
| DispatchOutcomes.RoundExactly | kit/loop/execute.go:68-130 | which calls preflight blocks, with which code for which check, and for which one call each other call waits by its target and by its gate |
| DispatchOutcomes.StepRecorded | kit/loop/execute.go:37-66 | every step keeps the record of how invocations ended: a known code with valid output is reported as it is, a panic, invalid output or a foreign code as unknown, a call whose start was not journaled as aborted |
| DispatchOutcomes.CancelledStartsNothing | kit/loop/execute.go:148-170 | in a cancelled round no tool starts |
| DispatchRuns.StepKeepsInv | kit/loop/execute.go:142-184 | every step of every goroutine keeps the invariant of the round, the events of its log included |
| DispatchRuns.CancelKeepsInv | kit/loop/execute.go:134-184 | so does the end of the caller's context at any time |
| DispatchRuns.HeldMayStart | kit/loop/execute.go:148-170 | a call that got its slot in a round that is not cancelled has everything it waits for behind it |
| DispatchRuns.StalledWaits | kit/loop/execute.go:148-184 | a round that can move no more without being finished has calls that wait for each other in a circle |
| DispatchRuns.WaitingSetHeld | kit/loop/execute.go:148-161 | such calls never move unless the round is cancelled |
| DispatchRuns.RankedHasNoWaitingSet | kit/loop/loop.go:43-48 | gates between targets that form no cycle leave no such calls, by the rank of the target and the index of the call |
| DispatchRuns.StepKeepsBounded | kit/loop/execute.go:162-175 | at no time are more tools running than there are slots |
| DispatchRuns.Execute | kit/loop/execute.go:131-184 | every interleaving ends, and every call finishes if and only if the round was cancelled or no calls wait in a circle |
| DispatchOverlap.ChainReaches | kit/loop/execute.go:116-123 | a call waits for every earlier call of its target, if only dispatched calls of the target lie between |
| DispatchOverlap.GateReaches | kit/loop/execute.go:124-130 | a gated call waits for every call of the named target behind which only dispatched calls of it lie |
| DispatchOverlap.StartsAfter | kit/loop/execute.go:142-182 | when a call starts, every call it waits for has ended or never starts, also under cancellation |
| DispatchOverlap.OverlapNotBehind | kit/loop/execute.go:142-182 | calls that overlap in some run do not wait for each other |
| DispatchOverlap.OverlapExactly | kit/loop/execute.go:142-182 | with two slots or more, two dispatched calls can overlap if and only if neither waits for the other |
| DispatchOverlap.CircleWaits | kit/loop/execute.go:148-161 | a call that waits for itself is one of a set of calls that wait for each other |
| DispatchOverlap.DeniedCallSplitsChain | kit/loop/execute.go:84-148 | a denied call between two calls of its target lets these overlap |
| DispatchOverlap.FinishedRound | kit/loop/execute.go:68-185 | in a finished round every call has exactly one result, with its own id, in its own position, and ran unless it was blocked or the round was cancelled |
| DispatchOverlap.FinishedTells | kit/loop/execute.go:36-185 | in a finished round every call has the result that its check or the end of its invocation gives, and a call that never started says so |
| DispatchOverlap.Dispatched | kit/loop/execute.go:68-185 | the whole dispatch: it finishes when targets can be ranked, and runs at most the configured number of tools at once; every result is what the check or the invocation of its call says, and the round is cancelled exactly if its caller ended it, a start was not journaled or a result not saved |
| Inputs.Inputs.Push | kit/loop/inputs.go:27-38 | an item is accepted exactly while the queue is open |
| Inputs.Inputs.Drain | kit/loop/inputs.go:39-51 | what was accepted and not taken is handed out once, in order |
| Inputs.Inputs.Close | kit/loop/inputs.go:52-62 | nothing is accepted any more, and what is left is handed out once |
| Collect.Read | kit/loop/stream.go:77-146 | it succeeds if and only if every event is proper and fits all earlier ones, every call has its item at the Terminal, which is last, and nothing interfered; the tables hold the items by index and a call for every function-call item, and in a response that failed the calls that were read |
| Collect.List | kit/loop/stream.go:51-65 | calls in index order; an id that repeats is an error, and what is returned never repeats one |
| Collect.Collect | kit/loop/stream.go:21-147 | it succeeds if and only if the response is good and no id repeats; then its items are all items by index, and its calls those of its function-call items in order; of a failed response there are the calls read so far, without repeated ids |
| Collect.GoodNext | kit/loop/stream.go:85-137 | the checks against the tables are exactly what the next event needs for the whole to stay good |
| Collect.AnswersOnce | kit/loop/stream.go:40-50 | the items by index are one list |
| Collect.PartialOnce | kit/loop/stream.go:51-65 | what was read of a failed response is one list of calls |
| Collect.CallsOfValues | kit/loop/stream.go:131-137 | at the Terminal the calls and the function-call items are the same list |
| Conversation.OutputsAreCalls | kit/loop/loop.go:177-202 | outputs and waiting calls together are the calls, each once |
| Conversation.CallHasItsOutput | kit/loop/loop.go:177-202 | in a settled transcript a function-call item has exactly one output, and it comes later |
| Conversation.AddOutputs | kit/loop/loop.go:188-202 | the outputs of a round follow its calls in their order, with their ids |
| Conversation.Repeats | kit/loop/loop.go:148-153 | a call id that was seen before, in this round or an earlier one, is found |
| Conversation.KeepsSaid | kit/loop/loop.go:144-177 | a response with new ids leaves its calls waiting and everything else in order |
| Conversation.KeepsSteered | kit/loop/loop.go:133-187 | steering joins the transcript in order and unsettles nothing |
| Conversation.Answer | kit/loop/loop.go:144-206 | a response joins the transcript with the outputs of all its calls if and only if it is good, its ids are new and the journal takes its calls; otherwise only the results of what was read of it are added, aborted or incomplete; whether another round follows; the transcript stays settled on every return path |
| Conversation.StoryAsks | kit/loop/loop.go:129-143 | one more request keeps what is said of all rounds |
| Conversation.StoryJoins | kit/loop/loop.go:144-206 | so does one more answer |
| Conversation.Decides | kit/loop/loop.go:144-177 | a response joins if and only if it is good, its call ids are new, and the journal takes its calls |
| Conversation.Rounds | kit/loop/loop.go:117-207 | the rounds up to any return, and why there are no more |
| Conversation.Run | kit/loop/loop.go:117-207 | request k is what was given, the whole of the rounds before it and all input that had arrived, with one output for each earlier call, as its dispatch reported it; the run goes on exactly after calls that were dispatched or input that came, ends well exactly after a response without either, and fails exactly for a response that does not join, a cancelled dispatch or an ended context; accepted input is in the transcript or in FollowUps, once and in push order |
| TextGuard.MarkerAt | kit/loop/text_calls.go:174-178 | the first character that could begin a call |
| TextGuard.Cut | kit/loop/text_calls.go:173-184 | text with a marker is delivered up to it and the rest is held |
| TextGuard.Hold | kit/loop/text_calls.go:173-221 | a held event leaves what was read recoverable from what was delivered and what waits |
| TextGuard.Released | kit/loop/text_calls.go:130-134 | when the guard lets go, deltas concatenate to the source text for each index, every item and call is delivered once and in order, and Terminal comes last, once |
| TextGuard.Synthesized | kit/loop/text_calls.go:135-146 | when text is replaced by a call, what was delivered holds no marker and no text item, and one item and one call follow |
| TextCallStream.AbsorbKeeps | kit/loop/text_calls.go:164-226 | reading one event keeps the record of what was delivered, held and done |
| TextGuard.TablesText | kit/loop/text_calls.go:246-264 | the text that is examined is the items' text, or the deltas' where an index has no item |
| TextGuard.SpokenExactly | kit/loop/text_calls.go:246-264 | index by index: the text of the last assistant item of an index if it has one, or else its deltas in order |
| TextCallStream.SettledByRelease | kit/loop/text_calls.go:126-134 | a response in which nothing was detected, or that acted, is passed on transparently |
| TextCallStream.SettledByCall | kit/loop/text_calls.go:135-146 | a usable attempt becomes one function-call item and one call |
| TextCallStream.AbandonedOf | kit/loop/text_calls.go:135-162 | of a defective attempt no item and no marker was delivered |
| TextCallStream.AbandonedHere | kit/loop/text_calls.go:135-162 | so it is when the guard retries and when it gives up |
| TextCallStream.TextCallStream.Take | kit/loop/text_calls.go:164-226 | what one event does to the fields, and whether it is handed out at once |
| TextCallStream.TextCallStream.Start | kit/loop/text_calls.go:74-93 | a restart forgets everything about the response but not what was delivered |
| TextCallStream.TextCallStream.Classify | kit/loop/text_calls.go:122-163 | at the Terminal: release, rewrite, restart once, or give up |
| TextCallStream.TextCallStream.Next | kit/loop/text_calls.go:108-228 | at most two streams are opened, exactly the returned events count as delivered, and whatever the reply, an abandoned response left text without a marker and nothing else; every failure has its cause in the source, and as long as there is patience a reply comes |
| TextCallStream.TextCallStream.Drain | kit/loop/text_calls.go:74-228 | whatever a reader takes holds no second ItemDone of an index across both streams; read to its end, the delivery is transparent or a repaired call, after an abandoned prefix; when the second attempt is detected too, or no second stream can be had, nothing of a detected response was delivered but text without a marker |
| TextCallStream.NothingTwice | kit/loop/text_calls.go:147-163 | no index gets two ItemDone events, a restart included |
| TextCallStream.AllDelivered | kit/loop/text_calls.go:108-134 | a stream that ended well delivered all it had to |
| Gregorian.DateIsDate | kit/calendar/schedule.go:326-328 | every day has a date, and the date gives the day back |
| Gregorian.DateUnique | kit/calendar/schedule.go:326-328 | every date is the date of exactly one day |
| Gregorian.Periodic | kit/calendar/schedule.go:59-61 | the calendar repeats every 146097 days, weekdays included |
| Gregorian.Recurs | kit/calendar/schedule.go:59-61 | the same date of the year falls on the same weekday 28 years before or after |
| Gregorian.Add400Years | kit/calendar/schedule.go:61 | adding 400 years adds one period of days |
| Gregorian.LastOfMonth | kit/calendar/schedule.go:336-337 | day zero of the next month is the last day of a month |
| Zone.First | kit/calendar/schedule.go:409-426 | there is a first instant whose clock shows a civil minute or a later one, less than a day away |
| Zone.FirstGrows | kit/calendar/schedule.go:409-426 | later civil minutes never resolve to earlier instants |
| Zone.ShownFirst | kit/calendar/schedule.go:410-419 | a civil minute that clocks show resolves to its first occurrence |
| Zone.JumpedOver | kit/calendar/schedule.go:420-424 | a civil minute that clocks skip resolves to the transition that skips it |
| Zone.ZoneDay | kit/calendar/schedule.go:387-408 | the boundary walk collects the offsets and gaps of the periods that meet the window |
| Zone.WindowCovers | kit/calendar/schedule.go:387-408 | the window holds every offset at which clocks show a minute of the day |
| Zone.WindowBridges | kit/calendar/schedule.go:387-408 | and the gap in which clocks skip one |
| Zone.ResolveCivil | kit/calendar/schedule.go:409-426 | the two loops find the first instant whose clock shows the minute or a later one |
| Schedule.AtGrows | kit/calendar/schedule.go:76-79 | with seconds too, later civil minutes never come earlier |
| Schedule.BeforeStart | kit/calendar/schedule.go:54-82 | a civil minute of an earlier date can give an instant at or after the start only if it is the start itself, in a gap |
| Recurrences.DaysExactly | kit/calendar/schedule.go:349-352 | a daily rule selects exactly the days start + k * INTERVAL |
| Recurrences.WeeksExactly | kit/calendar/schedule.go:353-356 | a weekly one exactly the days of every INTERVAL-th week, counted from the Monday of the start's week |
| Recurrences.MonthsExactly | kit/calendar/schedule.go:357-359 | a monthly one those of every INTERVAL-th month |
| Recurrences.YearsExactly | kit/calendar/schedule.go:360-362 | a yearly one those of every INTERVAL-th year |
| Recurrences.TimesExactly | kit/calendar/schedule.go:367-382 | hours and minutes count likewise |
| Recurrences.MonthDayExactly | kit/calendar/schedule.go:336-337 | a day matches BYMONTHDAY n if it is the n-th, and -n if it is the n-th last of its month |
| Recurrences.CronDateExactly | kit/calendar/schedule.go:332-344 | a cron date with both day fields restricted matches on either |
| Recurrences.DateExactly | kit/calendar/schedule.go:332-366 | all other dates match on all fields |
| Recurrences.InstantExactly | kit/calendar/schedule.go:384-426 | the instant of a civil minute, with the seconds of the start |
| Recurrences.PlainSeries | kit/calendar/schedule.go:58-110 | the whole series of a rule with an interval and nothing else |
| Recurrences.PlainRead | kit/calendar/schedule.go:153-258 | which is how a text with only FREQ and INTERVAL is read |
| Recurrences.StartOccurs | kit/calendar/schedule.go:58-110 | the start itself is in it |
| Recurrences.NextDaily | kit/calendar/schedule.go:40-111 | on a clock that never changes, consecutive results of Next for a daily rule are exactly INTERVAL days apart |
| Schedule.HourInstants | kit/calendar/schedule.go:70-85 | the instants of one hour of a day |
| Schedule.DayInstants | kit/calendar/schedule.go:68-85 | the loops over hours and minutes list exactly the instants of a day |
| NextInstant.Sort | kit/calendar/schedule.go:86 | the instants of a day in order, none lost |
| NextInstant.Visit | kit/calendar/schedule.go:87-105 | duplicates, UNTIL and COUNT within one day |
| NextInstant.Search | kit/calendar/schedule.go:58-110 | the day-by-day search skips no instant between its first day and what it returns |
| NextInstant.OccursFromAfter | kit/calendar/schedule.go:54-58 | starting on the civil day of `after` skips nothing that comes after it |
| NextInstant.NextInSeries | kit/calendar/schedule.go:54-105 | what is found is the least member of the series after `after` |
| NextInstant.SeriesWithinCount | kit/calendar/schedule.go:95-104 | with COUNT the series has at most that many members |
| Frequencies.WeeklyInside | kit/calendar/schedule.go:240-256 | an accepted weekly rule always has a date inside the window |
| Frequencies.WeeklyCeiling | kit/calendar/schedule.go:252-255 | the ceiling on INTERVAL is exact: at it a rule without BYDAY has no second date in the window |
| Frequencies.DailyInside | kit/calendar/schedule.go:240-242 | so has a daily rule |
| Frequencies.HourlyInside | kit/calendar/schedule.go:240-242 | an hourly rule has an instant inside the window |
| Frequencies.MinutelyInside | kit/calendar/schedule.go:240-242 | so has a rule of minutes |
| Frequencies.MonthsInside | kit/calendar/schedule.go:248-251 | fewer than 4800 months are fewer days than the window |
| Frequencies.MonthlyInside | kit/calendar/schedule.go:248-251 | a monthly rule from a day that every month has always has a date inside the window |
| Frequencies.YearlyInside | kit/calendar/schedule.go:243-247 | so has a yearly rule |
| HorizonLimits.CountCutsOff | kit/calendar/schedule.go:54-62 | with COUNT the 400 years are counted from the start: a third date that exists is not found after the second |
| HorizonLimits.LeapDayCutsOff | kit/calendar/schedule.go:243-247 | a yearly rule from 29 February can have its next date beyond the window |
| HorizonLimits.YearsAccepted | kit/calendar/schedule.go:153-258 | FREQ=YEARLY with any INTERVAL below 400, with and without COUNT, is accepted and read as the rules of these two lemmas |
| HorizonLimits.ParseYears | kit/calendar/schedule.go:153-258 | the parser returns exactly that rule for the text |
| Horizon.CronRecurs | kit/calendar/schedule.go:59-61 | a cron date that occurs at all occurs in every 400 years |
| Horizon.CronBeyond | kit/calendar/schedule.go:58-110 | a cron rule that finds nothing in 400 years never matches |
| Horizon.Next | kit/calendar/schedule.go:40-111 | Next returns the least member of the series strictly after `after`; it finds one if and only if some later member comes from a civil day of the 400 years it searches; it reports exhaustion only when there is none; a cron rule is beyond the horizon if and only if no date ever matches, and rules limited to an interval, weekdays or times of day never are |
| Horizon.Enumerate | kit/calendar/schedule.go:37-111 | repeated calls list the series strictly increasing without leaving a member out, at most COUNT of them |
| Rules.Numbers | kit/calendar/schedule.go:275-325 | the list is what its parts say, sorted and without repetition; it is refused if and only if some part cannot be read |
| Rules.ListUnique | kit/calendar/schedule.go:275-325 | a list has one reading |
| Rules.RangeOf | kit/calendar/schedule.go:278-316 | one part of a list lies within the limits of its field |
| Rules.ParseCron | kit/calendar/schedule.go:130-152 | a cron schedule is refused if and only if it has not five fields or one cannot be read; accepted, its rule is what the fields say |
| Rules.ReadPairs | kit/calendar/schedule.go:157-164 | the parts of an RRULE as a map; unknown, repeated and empty parts are refused |
| Rules.ReadPart | kit/calendar/schedule.go:186-236 | what one part sets, and when it is refused |
| Rules.ParseRRule | kit/calendar/schedule.go:153-258 | an RRULE is refused if and only if a part is unknown, repeated or cannot be read, FREQ is missing, COUNT meets UNTIL, or INTERVAL exceeds the horizon; accepted, its rule is what the parts say |
| RuleTexts.PartMeans | kit/calendar/schedule.go:275-322 | the members of "*", "a" and "a-b", each with and without "/n", and when they are refused |
| RuleTexts.NumberMeans | kit/calendar/schedule.go:275-322 | the same for the lists of an RRULE |
| RuleTexts.KeysExactly | kit/calendar/schedule.go:186-232 | the names of the parts |
| RuleTexts.FreqsExactly | kit/calendar/schedule.go:165-170 | the names of the frequencies |
| RuleTexts.DaysExactly | kit/calendar/schedule.go:217-226 | the names of the weekdays |
| RuleTexts.PairsExactly | kit/calendar/schedule.go:157-164 | the parts are read exactly if each is a known key with a value and none repeats |
| RuleTexts.FitsExactly | kit/calendar/schedule.go:240-257 | which intervals lie within 400 years |
| RuleTexts.DefaultsExactly | kit/calendar/schedule.go:123-185 | what a rule names that no part sets |
| Rules.ReadValid | kit/calendar/schedule.go:113-258 | accepted rules are what the search expects |
| Rules.WeeklyAccepted | kit/calendar/schedule.go:240-256 | a weekly rule limited to INTERVAL, BYDAY and times of day is one that Next always advances |
| Rules.PlainAccepted | kit/calendar/schedule.go:240-256 | a rule with an interval and nothing else is one that Next always advances, but for months and years from a day that not every month has |
| Decimal.AtoiItoa | kit/result/surface_fold.go:154-155 | reading a written number gives the number |
| Decimal.ItoaAtoi | kit/result/surface_fold.go:154-155 | writing a read number gives the text if and only if it is canonical |
| Decimal.AtoiExactly | kit/calendar/schedule.go:295-304 | a text is read exactly if it is an optional sign and digits whose number has 64 bits |
| Acp.LogAppend | kit/acp/client.go:433-458 | which updates are marked, event by event |
| Acp.BeginKeeps | kit/acp/client.go:152-178 | registering a call keeps pending calls, busy sessions and replay marks in step |
| Acp.SpillKeeps | kit/acp/client.go:162-173 | a full table leaves the session busy with nothing pending |
| Acp.EndKeeps | kit/acp/client.go:411-430 | a response ends the call, the busy state and the mark together |
| Acp.OnePending | kit/acp/client.go:152-178 | a session of a living connection has at most one pending call, and is then busy and marked exactly for a load |
| Acp.DrainedWritten | kit/acp/requests.go:157-179 | every request that a cancellation took has its answer on the wire once the cancellation is written |
| AcpClient.Client.Fail | kit/acp/client.go:103-117 | the first failure clears the tables; later ones change nothing |
| AcpClient.Client.BeginCall | kit/acp/client.go:126-178 | a call is accepted if and only if the connection lives and has got to where the call belongs, its session has no other operation and the table has room; what it then registers, and what every refusal leaves alone |
| AcpClient.Client.Admit | kit/acp/client.go:137-160 | the refusals before the table: dead, at the wrong time of the handshake, or busy |
| AcpClient.Client.FinishCall | kit/acp/client.go:169-183 | the call is on the wire before another control message can be; a call that cannot be written ends the connection |
| AcpClient.Client.BeginCancel | kit/acp/requests.go:133-165 | a cancellation marks the session and takes all its requests, and no others |
| AcpClient.Client.CancelOne | kit/acp/requests.go:166-174 | each of them is declined |
| AcpClient.Client.FinishCancel | kit/acp/requests.go:175-179 | the cancellation follows the answers to all requests it took |
| AcpClient.Client.Claim | kit/acp/requests.go:43-58 | an answer counts only while the table holds this very request, also when the agent used its id again |
| AcpClient.Client.FinishAnswer | kit/acp/requests.go:57-59 | a claimed answer is written once, or the connection ends |
| AcpClient.Client.Notified | kit/acp/client.go:433-458 | an update is marked by the state of its session at that time and queued, dropped or fatal |
| AcpClient.Client.Responded | kit/acp/client.go:411-430 | a response ends its call, and for a prompt its requests |
| AcpClient.Client.Ask | kit/acp/requests.go:61-105 | a request is registered with what its session's cancellation was at that moment; an id in use or a full table ends the connection |
| AcpClient.Client.Decide | kit/acp/requests.go:102-123 | a request registered while its session was cancelled is never put on a queue; the read loop declines it or the connection ends, and exactly when |
| AcpClient.Client.Receive | kit/acp/client.go:371-458 | each kind of frame: a response to a pending id ends exactly that call, frees its session and forgets the requests of a prompt, an unknown id changes nothing; an update is queued with its mark, dropped, or fatal; a request is registered, answered directly, or ends the connection; everything else stops the client |
| AcpClient.Exchange | kit/acp/client.go:126-183 | a call that is sent and answered leaves its session free for any next call and every other session alone |
| AcpClient.Client.Step | kit/acp/client.go:103-458 | what each action does wherever it can be taken |
| AcpClient.CancelledTwice | kit/acp/requests.go:100-179 | a run in which a second cancellation takes a request before the read loop does: the connection ends although every write succeeded and the request was answered once |
| AcpClient.Client.TakeRequest | kit/acp/client.go:86-90 | the user takes the oldest request of a queue |
| AcpClient.ValidIsSafe | kit/acp/client.go:56-77 | the invariant implies the promises, stated without it |
| AcpClient.Run | kit/acp/client.go:126-458 | in any run every action does what it says, each incoming request is answered at most once, a request of a cancelled session never reaches the user, a session has one pending call and marks updates exactly during a load, and no cancellation is followed by an earlier call |
| Pointer.UnescapeEscape | kit/result/surface.go:123 | escaping as in section 3 of RFC 6901 is inverted |
| Pointer.EscapeUnescape | kit/result/surface.go:114-123 | and every accepted token is the escaping of what is read |
| Pointer.PointerParts | kit/result/surface.go:106-126 | the loops accept and read exactly the well-escaped paths |
| Pointer.PartsOfPointer | kit/result/surface.go:106-126 | the pointer of some tokens is read as these tokens, but the lone slash as the whole document |
| Pointer.PointerOfParts | kit/result/surface.go:106-126 | every accepted path but the lone slash is the pointer of its parts |
| JsonTree.Resolve | kit/result/surface.go:136-153 | the walk reads the value at a path |
| JsonTree.GetJoins | kit/result/surface.go:137-152 | reading a path is reading its parts one after another |
| JsonTree.SetGet | kit/result/surface_fold.go:145-195 | a set value is read back at its path |
| JsonTree.SetSet | kit/result/surface_fold.go:145-195 | a second set overrides the first |
| JsonTree.SetSucceeds | kit/result/surface_fold.go:145-195 | whether a set succeeds does not depend on the value |
| JsonTree.SetsExactly | kit/result/surface_fold.go:145-195 | a write succeeds if and only if on its way stand only objects, nothing, or arrays that have the canonical index or end there; at the whole document it always does |
| JsonTree.SetKeepsOthers | kit/result/surface_fold.go:145-195 | a path that parts from the written one resolves as before |
| JsonTree.DivergeCases | kit/result/surface_fold.go:145-195 | paths that diverge part or are two spellings of an index; there is no third case |
| JsonTree.AliasReads | kit/result/surface.go:143-147 | the other spelling reads what the canonical one reads, before and after |
| JsonTree.LeadingZeroAliases | kit/result/surface.go:143-147 | "01" reads what a set at "1" wrote |
| JsonTree.RemoveGet | kit/result/surface_fold.go:158-186 | a removed member is gone; a removed element gives its place to the next |
| SurfaceTree.Search.Enter | kit/result/surface.go:176-194 | the recursive visit with its shared table and list |
| SurfaceTree.Order | kit/result/surface.go:166-199 | the whole of `ordered` |
| SurfaceTree.VisitTree | kit/result/surface.go:176-194 | what is found is the preorder of a tree, each component once |
| SurfaceTree.TreeVisit | kit/result/surface.go:176-194 | every tree that fits is found |
| SurfaceTree.OrderedExactly | kit/result/surface.go:166-199 | `ordered` returns a list if and only if it is the preorder of a tree that starts at "root", at most 32 deep, with each component once |
| SurfaceTree.OrderedElsewhere | kit/result/surface.go:166-199 | components that the tree does not reach cannot affect the order |
| SurfaceTree.OrderedTwice | kit/result/surface.go:166-199 | ordering is idempotent |
| Surface.Check | kit/result/surface.go:200-268 | the loop over the components decides the check |
| Surface.CheckEach | kit/result/surface.go:214-266 | bound paths and action names do not repeat, and there are at most as many actions as allowed |
| Surface.PutHolds | kit/result/surface_fold.go:90-95 | a component replaces the one of its identity and no other |
| Surface.FoldSurface | kit/result/surface_fold.go:20-144 | the loops over messages and components compute the fold |
| SurfaceFolds.FoldExactly | kit/result/surface_fold.go:20-143 | a fold succeeds if and only if the batch is within its limits, every message applies, and what is left is sound once ordered |
| SurfaceFolds.CreateExactly | kit/result/surface_fold.go:55-68 | a surface is created, empty, if and only if nothing lives and the id agrees with a deleted one |
| SurfaceFolds.DeleteExactly | kit/result/surface_fold.go:120-131 | a live surface is deleted, without components or data |
| SurfaceFolds.DeleteFolds | kit/result/surface_fold.go:120-143 | so the fold of a single delete gives exactly that, if the body rule accepts it |
| SurfaceFolds.UpdateExactly | kit/result/surface_fold.go:72-97 | what an update leaves under each identity |
| SurfaceFolds.DataExactly | kit/result/surface_fold.go:98-119 | a data message changes the data and nothing else |
| SurfaceFolds.StrangersRefused | kit/result/surface_fold.go:69-131 | a message for another, a missing or a deleted surface fails the whole batch |
| SurfaceFolds.SoundExactly | kit/result/surface.go:200-270 | a checked surface: every component complete, no two editable values bound to one path, no two actions with one name, every bound path resolves |
| SurfaceFolds.SizeExactly | kit/result/surface_fold.go:30-36 | the size of a batch is that of its messages |
| Surface.DataAsWritten | kit/result/surface_fold.go:98-119 | the data model becomes what the write says if and only if the write keeps every top-level member |
| Surface.DataMerged | kit/result/surface_fold.go:112-118 | otherwise a removal changes nothing and a new document is added to the old one |
| Surface.DataReadBack | kit/result/surface_fold.go:98-119 | below the whole document a value that was written is read back |
| Surface.DataKeepsOthers | kit/result/surface_fold.go:98-119 | and a path that parts from it resolves as before |
| Surface.RemovedMemberStays | kit/result/surface_fold.go:112-118 | a member stays after its removal |
| Surface.ApplyJoins | kit/result/surface_fold.go:31-131 | applying two lists of messages is applying their concatenation |
| Surface.FinishedCovers | kit/result/surface_fold.go:132-143 | extra components that nothing reaches are dropped and change nothing |
| Surface.FoldTwice | kit/result/surface_fold.go:20-144 | folding one batch and then another, when both succeed, equals folding both as one within the limits |
| Surface.FoldSplits | kit/result/surface_fold.go:20-144 | two folds succeed if and only if one fold of both batches does and every component of its result was kept by the first fold or is put by the second batch; the messages of the second batch apply either way |
| Surface.DroppedComponentMatters | kit/result/surface_fold.go:132-137 | one batch can succeed where two fail: a concrete input |
| Surface.FoldedIsOrdered | kit/result/surface_fold.go:132-143 | after a fold every component is in the order, so the check for detached ones cannot fail |
| Cursor.EpochsAreCanonical | kit/rpc/cursor.go:24-32 | valid epochs are exactly the canonical decimals below two to the 64th |
| Cursor.EpochsAreNumbers | kit/rpc/cursor.go:24-32 | valid epochs are equal as texts exactly when they are equal as numbers |
| Cursor.Sequence.Snapshot | kit/rpc/cursor.go:46-56 | which snapshots are installed, and what they reset |
| Cursor.Sequence.Accept | kit/rpc/cursor.go:58-82 | which frame is applied: exactly the next one, and none while a gap blocks; what every frame teaches about the epoch, and which ask for a snapshot |
| Cursor.Receive | kit/rpc/cursor.go:46-82 | what one message does, case by case; a client that applies accepted frames has the log up to its cursor; a gap blocks everything but a snapshot |
| Cursor.Follow | kit/rpc/cursor.go:46-82 | so it is under any loss, duplication and reordering, and the cursor never moves back |
| Cursor.InOrder | kit/rpc/cursor.go:46-82 | after a snapshot and the frames behind it in order, with duplicates of older ones anywhere, nothing is missing |
| Lease.StepsKeepOk | kit/lease/lease.go:73-120 | every step of every call and release keeps the lease's invariant |
| Lease.FinishIsLast | kit/lease/lease.go:73-120 | the callback runs at most once, and never while a call is inside Do or may still enter |
| Lease.Lease.Enter | kit/lease/lease.go:95-109 | a released lease admits no call |
| Lease.Lease.Leave | kit/lease/lease.go:110-118 | the last call out of a released lease runs the callback |
| Lease.Lease.Release | kit/lease/lease.go:73-89 | the first release of an idle lease runs the callback |
| Lease.Run | kit/lease/lease.go:73-120 | once everybody is done, the callback ran exactly once if somebody released the lease and not at all otherwise |
| Registry.AppliedExactly | kit/tools/registry.go:199-220 | an effect is reported as applied exactly when the handler said so in time, without an error and, for a write, with a revision |
| Registry.OutcomeExactly | kit/tools/registry.go:199-220 | what becomes of every status that a handler may report |
| Registry.HandlerReturns | kit/tools/registry.go:171-197 | the caller gets exactly what the handler returned in time |
| Registry.CallerTimesOut | kit/tools/registry.go:171-197 | a caller whose context ends gets an unknown effect |
| Registry.NotStarted | kit/tools/registry.go:133-166 | the refusals before a handler starts, each with its fault |
| Registry.NotTrusted | kit/tools/registry.go:185-197 | an outcome that could not be recorded is unknown |
| Registry.NextKeeps | kit/tools/registry.go:131-197 | every step of a dispatch keeps caller, handler, lease and slot in step; a slot is taken only when one is free |
| Registry.LeaseOutlivesHandler | kit/tools/registry.go:171-183 | a lease ends only after its handler returned |
| Registry.RunningHolds | kit/tools/registry.go:133-183 | a running handler holds a slot |
| Registry.Tool.Step | kit/tools/registry.go:131-197 | at no time are more than Conc handlers running, even when callers no longer wait |
| Registry.Run | kit/tools/registry.go:131-197 | so it is for any number of callers and handlers, whose dispatches are those of their actions |

## Left out

Guarded file editing:

- Symbolic links, devices and permission failures; `manifest`, and `read` beyond `Publication.ReadPath`. File names are compared as texts, as a case-sensitive file system does.
- Directories are paths: the other writer makes and removes them but does not rename one, and a directory that is removed and made again counts as the same one. The model lets it remove a directory that holds names of the worker, which a system refuses.
- FileSystem.World.CaptureFile: a directory that another writer puts at the destination between the check and the rename is captured whole by the code; here that rename fails.
- fsync and crashes: a system call may fail, and then has had no effect.
- A revision is a snapshot (the hash is taken to be injective), and staged names, slots and version names are fresh. A receipt's version is looked up by its name. The JSON text of a record is written out only for its length; reading it back is not modelled.
- UTF-8: characters stand for bytes, and invalid text is not modelled.
- The joint revision that `Execute` reports for several files.
- The other writer can do anything to the names of the destination and to inodes reachable from them, but leaves the worker's own staged names and recovery slots alone.

Tool dispatch and conversation:

- `Admit`, `Validate`, `Before` and the tools are arbitrary choices; what an executor does inside is not modelled, only that it returns or panics.
- Results carry an id and a code, not the JSON of a result or its revision.
- Outputs are not told apart by the kind of their call.
- `Transform` and `RuntimeTools` (the bridge that runs calls while a response is read), `Journal.Partial` and the metadata of a stream.
- The caller's context ends after some number of rounds, which is the length of a parameter; without it a run could go on for ever. What happens around each round is listed there, and input that is pushed between two looks at the queue is one list.
- Conversation.Run: does not take gates whose targets form a cycle, which kit/loop/loop.go:43-48 forbids; what dispatch does with them is `DispatchRuns.Execute`.

Text guard:

- JSON is a datatype: an item is malformed, a native call, or has text that an assistant said. `Meta`, `sumTextUsage` and `freshTextRequest` only move data along and are left out.
- The detector is an arbitrary function of the text; the tool declarations it also gets do not change within a stream.

Schedules:

- A zone is a finite table of changes with whole-minute offsets below a day, in which a clock that is set back does not reach the minute at which the offset it leaves began. Real zones do this; second-precise offsets of the nineteenth century do not.
- The zero `time.Time`, which the code uses for "none", is an option. A rule that meets the year 1 is not modelled.
- `time.Parse` of UNTIL is a function parameter, and `strings.Fields` has been applied. `At` schedules are one comparison and left out.
- Schedule.BeforeStart: the series leaves out civil minutes of dates before the start's own date, as the search does; the lemma says exactly what that excludes.
- The check `seen > c.count` (kit/calendar/schedule.go:96) can never hold where it stands, because the search ends at `seen == c.count`; the model keeps the latter.

Agent Client Protocol:

- Frames are datatypes. Malformed JSON, wrong versions and malformed responses are one kind of frame that ends the connection; ids are numbers or keys, not their text.
- A call or a cancellation whose context has ended already, or whose parameters cannot be marshalled, is refused before the model begins.
- `awaitCall` and the delivery of a reply to its caller, `Close`, and the typed wrappers around a call. A caller that stops waiting leaves its call pending, as in the code.
- A write either appends a frame to the wire or ends the connection; partial writes are not modelled.
- The steps of `AcpClient.Client.Step` are as fine as the critical sections of the code: a lock is held within a step, or named by the field `control`.

Surface folding:

- The catalog schema, the checks of single values and the size of the expanded card are parameters (`Surface.Rules`) that may be anything.
- JSON objects are maps, so key order and repeated keys are not modelled; numbers are integers, because nothing here computes with them. The length of a path is counted in characters.
- `Actions`, `ValidateAction`, `Controls` and the plain text of a surface.

Cursor, lease and registry:

- Leases without a state, which every method refuses, and the registration of tools beyond `Conc >= 1`.
- The tool gate and the leaser are arbitrary: each of their calls may succeed or fail. Deadlines are a step that may happen at any time. Panics of handlers are a kind of outcome.
