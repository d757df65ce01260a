# codex-ssh-bridge, modelled and proved in Dafny

codex-ssh-bridge is an MCP server that reads, searches, edits and runs commands on remote hosts over SSH. This
project models the parts of it where state, concurrency and arithmetic meet, and proves what they are for.

## What is modelled

- **The write-back edit cache.** `EditTypes` and `EditCache` are the cache itself: the class updates entries, byte
  count, recency and generations as the critical sections of the state mutex do, and `EditOrder` sorts a flush.
  `EditProtocol` is the transition system around it: loads, reads, batches, flushes, the items of the batch script,
  scripts that outlive an unknown outcome, retries, discards and other writers, interleaved in any order over any
  number of hosts. `EditFacts`, `EditInvariants` and `EditSafety` prove its invariant. `EditTheorems` says that no
  buffered edit is lost, that commits replace only versions the bridge knows, and that one flush under the
  preparation lock is enough; `EditUpdates` says when an edit replaces what it was computed from. `EditReads` follows a path after it has been read. `EditRefinement` and
  `EditConsequences` show that the cache refines a write-through store. `EditLimits` and
  `EditLate` show what eviction determines and where the refinement ends.
- **The commit transport.** `EditWire` is the partition of a batch into requests that fit, `EditRequest` what the
  login shell and the batch script read from a request, `Transcript` the reading of what the script writes.
- **Search.** `Search` is the streaming literal search with its overlap buffer and content budget, against naive
  search of each line.
- **Patches.** `Patch` parses update chunks and locates them under four matching modes, `PatchApply` applies them.
- **The output spool.** `Spool` is the ownership of charges, slots and files; `Capture` is the sink that fills them;
  `Preview` keeps the ends of a stream and the bound on a retained result.
- **Smaller protocols.** `Jobs` (runner, observers, crashes and reboots), `Capability` (the single-flight probe
  cache), `Mcp` (the owner loop), `Stdio` and `Frames` (two framings), `Quote` (shell quoting).
- `Common`, `Splitting`, `Numerals` and `Buffers` hold what these share.

## What is assumed

- SHA-256 is injective: `Sha256` is a constructor.
- Each item of the batch script checks and replaces its path in one step, and a flush is not aborted between its
  first and its last critical section.
- Counters, sizes and generations do not saturate; sizes are unbounded naturals.
- A spool reservation takes bytes from the quota and adds them to its account in one step, and a destructor runs in
  the same step as the drop that causes it.
- A file's length in the spool counts the bytes handed to the runtime, which writes them at once, later or never.
- A process identity (pid and start ticks) is not reused, and renaming a record into place is atomic.
- The runtime gives every task an id of its own, and tasks are aborted only while a connection closes.
- A file searched in text mode has the same bytes when it is read again for the NUL check.

## Where the code falls short of a property

- Publishing a read takes no preparation lock, so a read overtaken by the bridge's own commit can show old contents
  (`EditLimits.StaleReadIsShown`). The bridge could tell: `EditConsequences.PublishedReadFaithfulIff` says that
  publishing is faithful exactly when the last commit on the path since the read, if any, wrote what was read, and
  `EditConsequences.RefinesIffReadsAreTimely` that the cache refines the write-through store exactly when this is so of
  every publication.
- All unedited entries have generation zero, so the generation of a prepared edit does not show that an unedited path
  was dropped and loaded again with other contents: the edit is buffered over them and its commit goes through
  (`EditUpdates.UneditedChangeIsLost`). `EditUpdates.EditReplacesIff` says exactly when an edit replaces what it was
  computed from.
- A discard does not stop a script. An edit that was discarded during its flush, or after an unknown outcome, can still
  be written (`EditLate.DiscardedEditIsShown`, `EditLate.LateScriptIsShown`). `EditRefinement.LateWriteUnnoticedIff`
  says exactly which late writes are harmless, and `EditLate.HarmfulBreaksRefinement` that every other one is noticed.
  Quiet runs are those without other writers, in which late writes are harmless and reads are published in time.
- An edit of a file whose mode is above 0777, which a read accepts and a patch refuses (`src/remote/patch.rs:513`), is
  carried out and reads as an unknown outcome (`Transcript.SpecialModeIsUnknown`);
  `Transcript.TranscriptRoundTrip` says exactly when.
- A file can outlive its charge for a moment: a read of zero bytes drops its lease before its file
  (`src/output.rs:1028-1046`: bindings of one pattern are dropped in reverse order, `Spool.LateReaderIsUncharged`), and
  an abandoned read or write leaves its descriptor with the blocking pool (`src/output.rs:1889-1914`).
  `Spool.FilesAreCovered` says that no other file of an entry can be uncharged.
- `replace_state` checks no transition: a second runner launched for a finished job revives its record
  (`Jobs.SecondRunnerRevives`). `Jobs.LegalIff` says exactly when the rules are kept: every announcing runner has loaded
  a record that was Starting. A start launches one runner in the boot that created the job, and
  `Jobs.TransitionsAreLegal` is for those runs.
- An envelope is checked before the duplicate id, so an invalid envelope with the id of an outstanding call draws an
  error response with that id and the call's own response still follows (`Mcp.OutstandingIdIsAnsweredEarlyIff`,
  `Mcp.Owner.AnswerTwice`).
- A capability leader dropped between its successful probe and its publication lets its follower throw the result away,
  after which two calls can disagree without an invalidation (`Capability.DroppedLeaderDisagrees`).
  `Capability.ResultIsLostIff` says exactly when a result is lost, and `Capability.CallsAgree` that calls agree
  otherwise.

## Model

| member | source | states |
|---|---|---|
| EditCache.EditCache.LeastRecent | src/remote/edit_cache.rs:999-1014 | Finds the eviction candidate: clean, not in flight, not protected, and no candidate has been used less recently; `None` only when nothing may be evicted. |
| EditCache.EditCache.MakeCapacity | src/remote/edit_cache.rs:993-1030 | Eviction drops only clean, unprotected entries, each of them used no later than every candidate it keeps and each needed to make the room; it succeeds exactly when what it may not touch leaves room; bytes stay the sum of the entries and within the maximum. |
| EditCache.EditCache.Lookup | src/remote/edit_cache.rs:281-296 | A lookup returns the entry and changes nothing but its recency. |
| EditCache.EditCache.InsertClean | src/remote/edit_cache.rs:334-365 | Publishing a read inserts a clean entry with the base and digest of the snapshot, evicting if it must, unless the path is already cached or there is no room; an existing entry is never overwritten. |
| EditCache.EditCache.PublishLoaded | src/remote/edit_cache.rs:248-279 | The last section of a load shows an entry that appeared meanwhile, otherwise what was fetched, and keeps the latter only if it fits the budget. |
| EditCache.EditCache.MutatePreparedBatch | src/remote/edit_cache.rs:366-481 | Applies the relation `BatchApplied`, for which `EditFacts.BatchOutcome` says when each answer occurs and `EditUpdates.EditReplacesIff` what an edit replaces: a batch is buffered as a whole or refused without any edit, and after the former every path is dirty under a fresh generation of its own. |
| EditCache.EditCache.ApplyEdits | src/remote/edit_cache.rs:438-471 | Buffers the edits of an admitted batch in order, one new generation each, and accounts for their bytes exactly. |
| EditCache.EditCache.FlushBegin | src/remote/edit_cache.rs:833-876 | A host in conflict blocks the flush with one of its conflicts; otherwise exactly the dirty entries of the host are taken, each once and sorted by path, with the base, contents and generation they have, and are marked in flight. |
| EditCache.EditCache.FlushFinish | src/remote/edit_cache.rs:884-930 | Reported items become clean at their new base unless edited since; a failure returns the rest to dirty, in conflict unless it was transient; the progress says whether anything of the host is still dirty. |
| EditCache.EditCache.InvalidateCleanHost | src/remote/edit_cache.rs:770-781 | Drops exactly the entries of the host that are clean and not in flight, with their bytes. |
| EditCache.EditCache.DiscardHostEdits | src/remote/edit_cache.rs:686-734 | Drops the pending edits of the host and reports which paths, how many bytes, and whether an unknown outcome was among them. |
| EditCache.EditCache.RetryOutcomeUnknown | src/remote/edit_cache.rs:667-682 | Lifts unknown-outcome conflicts of the host and no other conflict; bases, contents and generations stay. |
| EditOrder.SortByPath | src/remote/edit_cache.rs:868 | Sorts the items of a flush by path and keeps exactly the same items, each once. |
| EditOrder.TakesReordered | src/remote/edit_cache.rs:845-868 | What a flush takes does not depend on the order in which it is listed, so every result about flushes holds for the sorted one. |
| EditOrder.BelowIff | src/remote/edit_cache.rs:868 | The order of the paths is lexicographic: a path comes before its extensions, and otherwise the first difference decides. |
| EditProtocol.ScriptItemComparesAndSwaps | src/remote/edit_sync.rs:53-151 | One item of the batch script is a compare-and-swap: it goes ahead if and only if the remote holds the version of its base, then the remote holds the desired version, and no other path changes. |
| EditFacts.BatchAppliedOk | src/remote/edit_cache.rs:434-480 | After any batch, buffered or refused, cached bytes are the sum of the entries and within the maximum. |
| EditFacts.EditsAt | src/remote/edit_cache.rs:438-451 | What a batch leaves under each key: the contents and generation given to it, dirty, with the base it had, and nothing else touched. |
| EditFacts.BatchOutcome | src/remote/edit_cache.rs:366-434 | Each answer of a batch occurs exactly when it should: refused for good for mixed hosts or a repeated path, refused for now when an entry is missing or its generation has moved on, sent to an immediate write when an edit is too large or the pinned bytes leave no room, and buffered otherwise; a refusal changes nothing. |
| EditFacts.SnapshotKeptIff | src/remote/edit_cache.rs:334-365 | A snapshot is kept exactly when it fits beside what may not be evicted; the entry is then clean, with the base and contents that were read. |
| EditProtocol.ScriptItemLeaves | src/remote/edit_sync.rs:102-151 | An item that goes ahead leaves the contents it asks for with the mode of the file it replaces, 0600 for a new file, or no file for a deletion. |
| EditSafety.InvKept | src/remote/edit_cache.rs:236-930 | Every step (load, read, batch, flush, script item, conflict, retry, discard, intrusion) keeps the invariant of cache, flights, scripts that outlived their flush, and the history of what the bridge knows. |
| EditSafety.Reachable | src/remote/edit_cache.rs:236-930 | The invariant holds in every state of every run, with any interleaving of hosts, flushes and other writers. |
| EditSafety.CarriedGuarded | src/remote/edit_sync.rs:53-151 | Carrying out an item whose base the bridge knows replaces only a version it knows. |
| EditTheorems.NoBufferedEditIsLost | src/remote/edit_cache.rs:434-480 | Once a batch returns generation g for a path, the path stays dirty at g or later through eviction, invalidation, flush, failure and retry, until a commit of g or later really took place and is reported, or its host's edits are discarded. |
| EditTheorems.CommitsReplaceOnlyKnownVersions | src/remote/edit_cache.rs:667-684 | With any other writers, and with scripts that outlive an unknown outcome and are retried, every commit that replaced or removed a version replaced one the bridge had earlier fetched from, or written to, that path. |
| EditTheorems.GenerationNamesContents | src/remote/edit_cache.rs:438-451 | In every run a positive generation identifies contents: two states that hold a path at the same one hold the same contents. |
| EditTheorems.EditReplacesWhatItSaw | src/remote/edit_cache.rs:407-411 | No update is lost: a buffered edit that names a positive generation replaces exactly the contents some earlier state held at that generation. |
| EditUpdates.EditReplacesIff | src/remote/edit_cache.rs:407-411 | In every run, a buffered edit replaces the contents its path had at the generation it names if and only if that generation is positive, or the path was not put back into the cache between from a snapshot with other contents. |
| EditUpdates.UneditedSameIff | src/remote/edit_cache.rs:256-275 | Two unedited entries of a path, both of generation zero, have the same contents if and only if the path was not put back between, or what last put it back was read with those contents. |
| EditUpdates.UneditedChangeIsLost | src/remote/patch.rs:753-763 | A concrete run: an edit is prepared for an unedited path, the host is invalidated, somebody else changes the file and it is loaded again; the edit is buffered over contents nobody looked at, with a base that lets its commit go through. |
| EditTheorems.FlushBlocksIff | src/remote/edit_cache.rs:884-930 | The end of a flush leaves its host in conflict if and only if it was, or the flush failed for good with an undiscarded item unreported; after a transient failure every such item can be taken again. |
| EditTheorems.RetryUnblocksIff | src/remote/edit_cache.rs:667-682 | A retry unblocks its host if and only if every conflict there is an unknown outcome, and keeps the edits it unblocks. |
| EditTheorems.InFlightOnlyDuringFlush | src/remote/edit_cache.rs:833-930 | No entry stays in flight outside a running flush of its host, and only dirty entries are in conflict. |
| EditTheorems.OneFlushUnderLockSuffices | src/remote/edit_cache.rs:581-627 | Under the preparation lock, one flush that ends without error leaves nothing dirty, so the loop of the barrier does not go round again. |
| EditTheorems.IdleFlushIsClean | src/remote/edit_cache.rs:868-870 | A flush that finds nothing to take finds the host clean. |
| EditRefinement.StepSimulates | src/remote/edit_cache.rs:236-930 | Every quiet step acts on what each path shows as the same step acts on a write-through store: a batch writes, a discard gives up what has not reached the remote, and everything else, eviction, failure, a harmless late write and the publication of a read that no commit has overtaken included, does nothing. |
| EditConsequences.CacheRefinesStore | src/remote/edit_cache.rs:236-296 | In every state of every quiet run, with discards during a flush and harmless late writes of scripts, each path shows exactly what a write-through store holds. |
| EditConsequences.LoadsShowStore | src/remote/edit_cache.rs:236-280 | What a load shows is what the write-through store holds at that moment, whether it was fetched or had appeared in the cache meanwhile. |
| EditConsequences.RefinesIffReadsAreTimely | src/remote/edit_cache.rs:334-365 | Over every run without other writers and with none but harmless late writes, discards during a flush and scripts that outlive their flush included, every path always shows what the write-through store holds if and only if no read result is published after a commit of the bridge has overtaken the read. |
| EditRefinement.LateWriteUnnoticedIff | src/remote/edit_cache.rs:884-930 | When a script carries out an item that no entry is in flight for, all paths show what they showed and the coupling of cache and remote survives if and only if the write is harmless: it stops at its guard, it writes what is there, or its path is cached and dirty and no running flush has done what is cached. |
| EditLate.HarmfulIsNoticed | src/remote/edit_cache.rs:686-734 | After a late write that is not harmless, ending a flush and invalidating the host suffice for its path to show something else. |
| EditLate.HarmfulBreaksRefinement | src/remote/edit_cache.rs:667-734 | After any quiet run, a late write that is not harmless, of a script that outlived its flush or of a running one whose edit was discarded, makes the cache distinguishable from the write-through store; so the condition is exact. |
| EditRefinement.UnknownOutcomeIsHarmless | src/remote/edit_cache.rs:898-929 | A script that goes on after an unknown outcome is harmless as long as its edit is neither discarded nor taken into another flush. |
| EditLate.LateScriptIsShown | src/remote/edit_cache.rs:686-734 | A concrete run: a flush ends with an unknown outcome, its edit is discarded, and the script then writes it; the path shows the edit and the store does not hold it. |
| EditLate.DiscardedEditIsShown | src/remote/edit_cache.rs:686-734 | A concrete run: an edit is discarded while its flush is running, and the script then writes it. |
| EditConsequences.BarrierSynchronizes | src/remote/edit_cache.rs:590-627 | When a barrier returns without error, whether it found nothing to take or its flush landed, its host is clean and the remote holds the write-through store on every path of the host, and so the contents of every cached entry. |
| EditReads.StillAsReadIff | src/remote/read.rs:216-231 | In every run, with flushes, retries, scripts that outlive their flush and other writers on other paths: a path is still as it was read if and only if the last commit the bridge has made on it since, if any, wrote just that. |
| EditReads.TracedKept | src/remote/edit_cache.rs:236-930 | Every step keeps this: from any read that no other writer has followed, the commits since lead to what the remote holds. |
| EditConsequences.PublishedReadFaithfulIff | src/remote/edit_cache.rs:334-365 | Publishing a read takes no preparation lock: when it inserts an entry, the path keeps showing what it showed if and only if the last commit of the bridge on it since the read, if any, wrote what was read. |
| EditConsequences.NoConflictWithItself | src/remote/edit_cache.rs:884-930 | Alone on the host and with faithful reports, the bridge never conflicts with itself: no script of any run stops. |
| EditLimits.EvictionDetermined | src/remote/edit_cache.rs:993-1030 | Which entries are evicted is determined by the LRU order: two ways of making the same room keep the same entries and agree on success. |
| EditLimits.LruKept | src/remote/edit_cache.rs:988-991 | Every step keeps recency numbers distinct. |
| EditLimits.LruAlways | src/remote/edit_cache.rs:988-991 | Recency numbers are distinct in every state of every run, so the LRU order is total. |
| EditLimits.EvictionAlwaysDetermined | src/remote/edit_cache.rs:993-1030 | In every state of every run, which entries make room, and whether they can, is a function of the state. |
| EditLimits.StaleReadIsShown | src/remote/edit_cache.rs:334-365 | A concrete run in which publishing a read that was overtaken by the bridge's own committed edit shows the old contents as a clean entry. |
| EditWire.PrepareArguments | src/remote/edit_sync.rs:388-428 | Computes the eight arguments of every item in order, or nothing if some item cannot be rendered, and the number of bytes that follow on standard input; `EditRequest.ScriptReadsBatch` says what the script makes of them. |
| EditRequest.PrepareBatch | src/remote/edit_sync.rs:377-387 | Computes the arguments with real hashes and the input, the contents of the items one after the other. |
| EditRequest.OrderReadsBack | src/remote/edit_sync.rs:53-146 | The script reads the eight words of one item as an order for just that item; the words exist exactly when the path names something in a directory. |
| EditRequest.ScriptReadsBatch | src/remote/edit_sync.rs:53-146 | Reading the arguments of a batch eight at a time, as the script does, gives back every item in order: path, missing or regular base with its digest, write or removal, size, digest, and the mode in octal. |
| EditRequest.ContentsReadBack | src/remote/edit_sync.rs:109-116 | Staging `size` bytes of input for every order that writes gives every item its own contents. |
| EditRequest.RenderedReadsBack | src/ssh/process.rs:2115-2147 | A shell reads the rendered command as `exec sh -c`, the script, its name, and exactly the arguments. |
| EditRequest.RequestIsTheBatch | src/remote/edit_sync.rs:254-268 | Whenever a request can be sized, the remote end understands it as the batch: the shell runs the script on words from which it reads one order per item, it stages every item's contents from the input, and command and input are together as long as was reckoned. |
| EditWire.TransportIsAdditive | src/remote/edit_sync.rs:459-466 | The size of a request is a fixed overhead plus a cost of each item that depends on that item alone. |
| EditWire.PlaceholderSizesAreReal | src/remote/edit_sync.rs:388-466 | A request sized with placeholder hashes has exactly the size of the real one. |
| EditWire.PartitionItems | src/remote/edit_sync.rs:430-457 | Fails exactly when some item fits in no request by itself; otherwise the requests are nonempty, fit, keep the items in order, and no in-order split has fewer. |
| EditWire.PartitionsPassFrameCheck | src/remote/edit_sync.rs:254-268 | Every request of a partition passes the frame check made on its real encoding. |
| EditWire.FitsShorter | src/remote/edit_sync.rs:430-466 | Any stretch of a request that fits would fit by itself. |
| EditWire.BatchTransportBytes | src/remote/edit_sync.rs:459-466 | Computes the size a request will have without hashing contents; nothing exactly when it cannot be rendered. |
| Transcript.ParseBatchResult | src/remote/edit_sync.rs:468-537 | Reads a transcript field by field and agrees with the specification of its reading on every output, well-formed or not. |
| Transcript.TranscriptRoundTrip | src/remote/edit_sync.rs:82-151 | Reading what the script writes reports exactly the items carried out and the conflict, if and only if none of those items leaves its path with a mode above 0777; otherwise the outcome is unknown. |
| Transcript.SpecialModeIsUnknown | src/remote/read.rs:171-182 | An edit of a set-user-id file, which a read reports like any other, is carried out and never confirmed, whatever the script answers. |
| Transcript.TruncatedIsUnknown | src/remote/edit_sync.rs:553-576 | A genuine transcript cut anywhere reads as an unknown outcome: never as success, never as a conflict. |
| Transcript.ReportsInOrder | src/remote/edit_sync.rs:508-546 | Whatever bytes come back, the successes are an in-order prefix of the items, a conflict lies just past them, and a result without error covers every item. |
| Transcript.ReportedIff | src/remote/edit_sync.rs:468-537 | Successes and a conflict are reported if and only if standard error is empty and the transcript certifies them: one record for each item in order with its number, its digest and a mode within 0777, or a dash and zero for a deletion, for all items and nothing more, or up to a conflict record. |
| Transcript.CommitBatch | src/remote/edit_sync.rs:334-369 | Sends requests one after another and stops after the first that does not fully succeed; what is reported is exactly what the requests sent so far report, an in-order prefix of the items; the failure is that of the first request that fails, a lost answer, an unknown outcome or a conflict with its path, and there is none if and only if every request succeeds. |
| Search.SearchFile | src/remote_helper.rs:989-1119 | For every file and every two ways of reading it in buffers, the outcome is the one defined on the bytes alone; `Search.OutcomeReports` and `Search.OutcomeTruncatedIff` say what that outcome is. |
| Search.ScanBuffer | src/remote_helper.rs:1035-1100 | One buffer: every newline in it finishes a line and the tail opens the next, as if the whole prefix of the file had been split into lines. |
| Search.ScanSegment | src/remote_helper.rs:1167-1226 | After any segment the scan state is that of the whole line so far: first column, budget and overlap. |
| Search.FindAcross | src/remote_helper.rs:1181-1206 | Looking in the overlap plus the head of a segment, then inside the segment, finds the first occurrence in the joined text. |
| Search.FinishLine | src/remote_helper.rs:1228-1253 | A finished line updates the report as the line-by-line definition does; `Search.TruncatedIff` says exactly what that reports and drops. |
| Search.ContainsNul | src/remote_helper.rs:1126-1165 | Finds a NUL if and only if some buffer holds one. |
| Search.OutcomeIsNaive | src/remote_helper.rs:1100-1119 | A search that drops nothing returns exactly the first naive matches of the file, and in text mode nothing when the file holds a NUL. |
| Search.UntruncatedIsNaive | src/remote_helper.rs:1228-1253 | Unless something was dropped, the report is the first `max_results` naive matches. |
| Search.ReportsOnlyMatches | src/remote_helper.rs:1228-1253 | Truncated or not, every reported match is a naive match, in file order and within the limits. |
| Search.NaiveMatchesAre | src/remote_helper.rs:1181-1206 | The naive matches are exactly the first occurrences of the query in the lines that have one. |
| Search.LinesAre | src/remote_helper.rs:1035-1100 | The lines searched are what the newlines of the file end, and then what follows the last newline, if anything. |
| Search.TruncatedIff | src/remote_helper.rs:1228-1253 | A report is truncated if and only if the contents of the first `max_results` naive matches take more than the budget; a text search keeps every match there is room for, a binary search the longest beginning there is room for, and the content counted is the content kept. |
| Search.OutcomeTruncatedIff | src/remote_helper.rs:1100-1119 | A search says it is truncated if and only if its first naive matches take more than the budget, unless it is a text search that finds something and then a NUL in the file. |
| Search.OutcomeReports | src/remote_helper.rs:1100-1119 | What a search returns, truncated or not, from the naive matches alone. |
| Patch.ParseUpdateChunk | src/remote/codex_patch.rs:182-262 | An accepted chunk is an optional header and prefixed lines, all of whose old lines, new lines and context indices come from one edit script, possibly with a final end-of-file marker; it is refused only for an empty context, a record that cannot be read, one line too many, or something after the marker. |
| Patch.ParseBody | src/remote/codex_patch.rs:205-248 | The body is one edit script over the records up to the one that ends it; a failure names the first record that can neither be read nor end the body, or the line past the bound. |
| Patch.BodyOpIff | src/remote/codex_patch.rs:225-243 | A record is read as a context line, a removal or an addition exactly when it is that line with its prefix. |
| Patch.SeekFinds | src/remote/codex_patch.rs:431-473 | A search for a nonempty run of lines succeeds exactly when some position from the cursor on matches under the loosest mode, and what it returns does match. |
| Patch.SeekPrefersExact | src/remote/codex_patch.rs:454-473 | An exact match from the cursor on is never passed over for a looser one. |
| Patch.ModesNest | src/remote/codex_patch.rs:475-512 | Each of the four matching modes accepts whatever a tighter one accepts. |
| Patch.TrimmedStrips | src/remote/codex_patch.rs:475-512 | Trimming takes off whitespace at the ends of a line and leaves none there. |
| Patch.SeekIsBest | src/remote/codex_patch.rs:431-473 | A search finds the match under the tightest mode under which anything from the cursor on matches, and the first of those; with an end-of-file marker it finds the last place in the file instead whenever the lines fit there. |
| Patch.FindReplacement | src/remote/codex_patch.rs:378-405 | Looks a chunk up from the cursor as `LocateOne` specifies, for which `Patch.LocateOneIff` says where a chunk lands and when it is refused; no index leaves the file. |
| Patch.LocateOneIff | src/remote/codex_patch.rs:378-405 | A chunk is refused if and only if its context matches nowhere from the cursor or its old lines match nowhere after it; otherwise it lands at the best match of its old lines after the best match of its context, at the end of the file if that is asked for or if it has neither, and leaves the cursor behind them. |
| Patch.LandsAfterContext | src/remote/codex_patch.rs:378-392 | A chunk with a context lands after a line that matches the context, and without an end-of-file marker no exact match of its old lines lies between. |
| Patch.LocateFailsIff | src/remote/codex_patch.rs:376-405 | Locating a list of chunks fails, with a conflict, if and only if some chunk misses from where those before it left the cursor. |
| Patch.LocatedAlongPath | src/remote/codex_patch.rs:376-405 | When locating succeeds, every replacement starts where its chunk lands on the path of cursors that the chunks lay down one after another. |
| Patch.PathIsUnique | src/remote/codex_patch.rs:376-405 | That path is determined by the lines and the chunks. |
| Patch.ReplacementsFit | src/remote/codex_patch.rs:376-405 | For every list of chunks the parser accepts and every file, the replacements lie in the file, in order and apart, and carry out the edit scripts of the effective chunks one by one, in order. |
| Patch.SubstitutedIsEmit | src/remote/codex_patch.rs:394-400 | Overwriting context lines by index gives what the edit script emits: context as the file has it, additions as the patch has them. |
| PatchApply.ApplyUpdate | src/remote/codex_patch.rs:361-429 | For any file and any accepted chunks no index goes out of range, and the result is `Applied`, which `PatchApply.UpdateOutcome` characterises. |
| PatchApply.UpdateOutcome | src/remote/codex_patch.rs:361-429 | A file with a zero byte is an invalid patch, a chunk that misses is a conflict; otherwise the text is the file with one edit script per effective chunk carried out where the path of cursors puts it, refused as too large exactly past the bound, and as a conflict exactly when neither text nor path changes. |
| PatchApply.ExtendLines | src/remote/codex_patch.rs:310-322 | Appends whole lines, and refuses exactly when the bound in UTF-8 bytes would be exceeded. |
| PatchApply.WriteReplacements | src/remote/codex_patch.rs:407-422 | Copies the lines between replacements unchanged and puts the new lines in their place, within the bound. |
| PatchApply.SplitLines | src/remote/codex_patch.rs:369-374 | Splits at every newline; an unfinished last line counts unless it is empty. |
| PatchApply.LinesAre | src/remote/codex_patch.rs:369-374 | The lines of a text are what its newlines end, and then what follows the last of them, if anything. |
| PatchApply.UpdateConserves | src/remote/codex_patch.rs:394-422 | As multisets of lines, the result is the file less exactly the lines matched by `-` records plus exactly the `+` records, under every matching mode. |
| PatchApply.AppliedIsEditScripts | src/remote/codex_patch.rs:361-429 | An update that is applied is one edit script for each effective chunk, in order, each carried out where its old lines match, apart from the others, with every other line copied. |
| Quote.ShellWord | src/quote.rs:8-82 | Quotes exactly the NUL-free values, and the result is the single-quoted form. |
| Quote.FindQuote | src/quote.rs:74-82 | Finds the first single quote, or tells that there is none. |
| Quote.QuotedLength | src/quote.rs:41-66 | A quoted word is exactly the value's length plus two, plus four for each quote in it. |
| Quote.ReadArguments | src/quote.rs:92-106 | Appending quoted arguments to any complete command appends exactly those words to what a shell reads. |
| Quote.CommandReadsBack | src/cli.rs:247-252 | Tokenising a command of quoted words by sections 2.2.2 and 2.2.3 of the POSIX Shell Command Language gives back the argument list. |
| Quote.CommandInjective | src/cli.rs:247-252 | Different argument lists give different commands. |
| Quote.FixedCommand | src/quote.rs:92-106 | The script followed by its quoted arguments, or nothing exactly when a NUL occurs. |
| Spool.InvKept | src/output.rs:210-424 | Every action of captures, retentions, readers, expiry and cleanup keeps the accounts equal to what is held and every file backed. |
| Spool.QuotaIsConserved | src/output.rs:210-248 | In every reachable state the quota used is the sum of the live charges and within the limit, and a charge exists exactly while a holder or a tombstone wants it. |
| Spool.FilesAreCovered | src/output.rs:1175-1236 | Every file on disk, failed unlinks and files open in readers included, is covered by a live charge at least its length plus what is still to be written, if and only if it is not one that is already unlinked, wanted by no holder and no tombstone, and open only in stragglers. |
| Spool.DiskIsBounded | src/output.rs:210-248 | While no descriptor outlives what it is charged to, the bytes on disk are within the quota. |
| Spool.EntriesAreBounded | src/output.rs:260-284 | The entries with a file in the spool directory never outnumber the entry slots. |
| Spool.EverythingReturns | src/output.rs:340-344 | When an entry has no holder and no tombstone left, its charge, its slot and its linked files are gone. |
| Spool.LateReaderIsUncharged | src/output.rs:1028-1046 | A concrete run: the lease of a reader with nothing to read is dropped before its file, so after expiry a byte is on disk with nothing charged. |
| Spool.ReleaseBase | src/output.rs:1175-1218 | Dropping a holder after unlinking, with any set of unlinks failing, leaves every remaining file backed. |
| Preview.PreviewSink.Push | src/output.rs:1764-1788 | After any sequence of chunks, head and tail are those of the whole stream. |
| Preview.PreviewSink.Finish | src/output.rs:1790-1798 | The preview is that of the whole stream. |
| Preview.PreviewKeepsEnds | src/output.rs:1744-1798 | A preview is truncated exactly when the stream is longer than its budget; then it is a prefix of half the budget and a suffix that fills the rest, otherwise it is the whole stream. |
| Preview.LastOfAppend | src/output.rs:1770-1787 | The last n bytes of an extended stream, from the last n bytes before and the extension. |
| Preview.CappedDetailWriter.Write | src/output.rs:1370-1403 | The file grows by a prefix of the buffer, by all of it on success, never past the limit; the counter left for the accounting is what was written; each failure has its cause in the last answer of the file or the cancellation. |
| Capture.OutputSink.StartSpooling | src/output.rs:1575-1628 | Spilling moves memory whole into the files, or fails with either nothing on disk or accounts that match the disk exactly. |
| Capture.OutputSink.Retain | src/output.rs:1829-1858 | Keeps charged bytes in memory or on disk, and gives back the charge of exactly the bytes a failed write did not take. |
| Capture.OutputSink.AppendAllowed | src/output.rs:1541-1573 | An accepted append extends its stream, keeps both streams whole and charges every byte once; whatever fails, the accounts cover the disk, exactly so once something has been written. |
| Capture.OutputSink.Append | src/output.rs:1515-1539 | Output over the limit is refused after precisely what still fits has been taken; when nothing fails, accepted and refused are decided by the limit alone. |
| Capture.OutputSink.Finish | src/output.rs:1639-1688 | A capture is published, with the lengths of both streams, exactly when it outgrew the spill threshold and both files could be flushed; then the files hold both streams whole. |
| Jobs.LegalIff | src/remote_job_runner.rs:142-148 | In every run, with any number of runners launched at any time, the record changes only by allowed transitions and is deleted only when finished, if and only if every runner that announced itself had loaded a record that was Starting. |
| Jobs.LostSparesTheLockHolder | src/remote_job_runner.rs:300-336 | Lost is written only by the process that holds the lock, never while a runner holds it. |
| Jobs.TransitionsAreLegal | src/job_protocol.rs:63-78 | With one runner, launched when the job is created, every change of the record in every run with crashes, reboots and observers is an allowed transition, and only finished jobs are deleted. |
| Jobs.TerminalIsFinal | src/job_protocol.rs:63-78 | A terminal record never changes again, except that it can be deleted for good. |
| Jobs.LostMeansGone | src/remote_job_runner.rs:300-336 | When Lost is written no runner is alive, and a job still Starting is given up only after a reboot. |
| Jobs.AbandonedIsCondemned | src/remote_job_runner.rs:300-336 | An observer that nobody disturbs writes Lost over any unfinished record whose boot is gone or whose running runner is, if the lock is free. |
| Jobs.OnlyAbandonedIsCondemned | src/remote_job_runner.rs:300-336 | Conversely, if an undisturbed observer writes Lost, the record was abandoned in that sense and the lock was free. |
| Jobs.CancelNeedsRequest | src/remote_job_runner.rs:406-522 | In every run a job becomes Cancelled only after its cancellation was requested. |
| Jobs.OrderlyKept | src/remote_job_runner.rs:406-522 | Every step of runner, observers, crashes and reboots keeps the invariant of the record and the lock. |
| Jobs.SecondRunnerRevives | src/remote_job_runner.rs:406-452 | A concrete run: a runner launched for a finished job makes its record Running again. |
| Jobs.LogsFillTheLimit | src/remote_job_runner.rs:573-583 | However the chunks of the two streams interleave, the logs together keep all of the output or exactly the limit. |
| Jobs.Drain.Chunk | src/remote_job_runner.rs:548-571 | Every byte is counted as observed, and the log grows by the prefix that was granted. |
| Capability.InvKept | src/capability.rs:1030-1106 | Every critical section, probe, drop and invalidation keeps entries, flights and callers consistent. |
| Capability.AnswersAreFresh | src/capability.rs:1030-1098 | Whatever is dropped, an answer, capability or failure, is that of a probe which started after every invalidation that preceded the call, and a call runs its probe at most once. |
| Capability.StartIsRecorded | src/capability.rs:1066-1067 | The start that a cell records is the epoch in which the probe that is to fill it was started. |
| Capability.AnswersAreProbed | src/capability.rs:1030-1098 | Every answer, capability or failure, of a leader, a follower or a later call, is the outcome of one probe that ended before, for the cell the answer is from. |
| Capability.ResultIsLostIff | src/capability.rs:1081-1106 | A result that lookups find is lost if and only if the host is invalidated or a follower of a dropped leader throws away the cell that is filled and still current. |
| Capability.DiscardReopens | src/capability.rs:1036-1055 | After such a discard the next lookup is admitted to probe again. |
| Capability.SecondSuccessNeedsDiscard | src/capability.rs:1030-1098 | When two probes succeed between the same two invalidations, a discard lies between them: otherwise at most one succeeds. |
| Capability.CallsAgree | src/capability.rs:1030-1098 | Unless a result has been discarded, all calls that find a capability between the same two invalidations have the same answer from the same probe, however many leaders are dropped. |
| Capability.DiscardNeedsDrop | src/capability.rs:1113-1126 | A result is discarded only after its leader was dropped between the end of its successful probe and its publication. |
| Capability.DroppedLeaderDisagrees | src/capability.rs:1058-1075 | A concrete run with such a drop: two calls get different answers although nothing was invalidated. |
| Mcp.RequestsGetOneAnswer | src/mcp/mod.rs:332-527 | Every frame with an id, and every broken one, gets exactly one of a control response and an admission; a notification or a broken envelope without id gets neither; calls are admitted only when ready, under an id not outstanding. |
| Mcp.AdmittedIff | src/mcp/mod.rs:447-517 | A frame is admitted, under its own id and tool name, if and only if it is a valid envelope with an id not outstanding, calls a listed tool with valid parameters on a server that is ready, and its response fits a frame; such a call whose response cannot fit is the only frame to meet an internal error. |
| Mcp.ServedIff | src/mcp/mod.rs:376-445 | Exactly when initialize, ping and the list of tools get their results, the server becomes ready, and a call is cancelled. |
| Mcp.RefusedIff | src/mcp/mod.rs:332-380 | Exactly when each error is the answer: unparsable, unusable, an id that is outstanding, a bad envelope or a misplaced method, an unknown method, a server not initialized, invalid parameters. |
| Mcp.OutstandingIdIsAnsweredEarlyIff | src/mcp/mod.rs:351-361 | A control response bears the id of an outstanding call if and only if an invalid envelope carries that id. |
| Mcp.Owner.AnswerTwice | src/mcp/mod.rs:351-361 | An invalid envelope with the id of an outstanding call is answered at once, and the call's own response follows all the same: two responses with that id leave. |
| Mcp.Owner.ProcessControlFrame | src/mcp/mod.rs:323-527 | Handles a frame as its verdict says, for which `Mcp.AdmittedIff`, `Mcp.ServedIff` and `Mcp.RefusedIff` say what it is, and keeps registries, ledger and handshake consistent. |
| Mcp.Owner.ProcessCompletion | src/mcp/mod.rs:545-600 | A finished task settles the call it was spawned for: answered once, silent if the client cancelled it, lost only to a failing transport; the mismatch branches are unreachable. |
| Mcp.Owner.AnswerFrame | src/mcp/mod.rs:181-199 | A frame is answered by exactly the response or the admission it calls for, and the initialize result is sent before the state moves on. |
| Mcp.Owner.TakeEvent | src/mcp/mod.rs:130-236 | One turn of the owner loop: exactly the response or admission the event calls for, then at most one completion. |
| Mcp.Owner.Close | src/mcp/mod.rs:238-271 | Closing sends nothing, and every call still open ends without a response. |
| Mcp.Owner.RemoveCompletion | src/mcp/mod.rs:624-646 | Cleaning up a task never finds the registries inconsistent. |
| Mcp.Owner.Serve | src/mcp/mod.rs:108-310 | Over any sequence of events: without a fault, control responses and admitted calls are together as many as the events that demand an answer; calls and call responses correspond one to one apart from cancelled and unfinished calls, no response precedes the initialize result, and bookkeeping never ends the connection. |
| Mcp.ResponsesCountCalls | src/mcp/mod.rs:545-600 | As many call responses leave as calls were answered. |
| Mcp.AnswerBalances | src/mcp/mod.rs:558-583 | Sending the response of an open call keeps the one-to-one correspondence. |
| Stdio.FrameReader.NextFrame | src/mcp/stdio.rs:52-104 | The events emitted are those of splitting the consumed stream at newlines, whatever the buffers; abandoning the wait or an error loses nothing; at the end the events are exactly those of the whole stream. |
| Stdio.FrameReader.Absorb | src/mcp/stdio.rs:67-102 | One buffer: at most one line ends, a line over the limit becomes Oversized, and never more than the limit is retained. |
| Stdio.EarlyEventsArePrefix | src/mcp/stdio.rs:52-104 | Events emitted before the end are the first events of the whole stream. |
| Stdio.LinesComeBack | src/mcp/stdio.rs:52-104 | Lines, each ended by a newline, come back as they are if they are within the limit and as oversized if not, and then the end, partial exactly if bytes follow the last newline. |
| Frames.ReadFrame | src/remote_helper_protocol.rs:69-168 | What is read, frame, end or error, depends on the bytes alone and not on the buffers; after a frame exactly the rest of the stream is left. |
| Frames.ReadHeader | src/remote_helper_protocol.rs:69-108 | The header line, its error or the end, whatever buffers it arrives in. |
| Frames.FrameReadsBack | src/remote_helper_protocol.rs:69-191 | A written frame followed by anything is read back, with the rest left untouched; the payload may hold any bytes. |
| Frames.GotIff | src/remote_helper_protocol.rs:69-168 | A frame is read from a stream if and only if the stream starts with a printable line within 256 bytes whose four fields announce it, then its payload within the bound, and the rest is what follows. |
| Frames.HeaderIsBounded | src/remote_helper_protocol.rs:176-188 | The header of every frame is within 256 bytes, so that bound never refuses a frame. |
| Frames.WriteFrame | src/remote_helper_protocol.rs:170-191 | A frame is refused exactly when its payload is over the bound, and then nothing is written. |
| Frames.ReadAll | src/remote_helper_protocol.rs:69-168 | Reading the concatenation of written frames gives the same frames in order and then the end of the stream. |
| Frames.TokensReadBack | src/remote_helper_protocol.rs:27-60 | Every kind is read back from its token. |
| Numerals.ParseDecimal | src/remote_helper_protocol.rs:134-145 | A decimal numeral within 64 bits is parsed back to its value. |

## Left out

- The spool's shared ownership, the job records and the capability cache are transition systems on values: what updating counters, files and maps in place adds to their steps is not modelled.
- Timers, deadlines and the payload threshold that start a flush: a flush may begin in any state, and no claim is made about when.
- `mutate`, host status and shutdown of the edit cache: combinations of the sections modelled here.
- Immediate writes of the bridge, which bypass the cache: to the model they are another writer.
- File modes in the refinement: a version is its contents, because deleting and recreating a path in one batch keeps the old mode.
- Error messages, codes and retry advice of the edit cache: an error is transient, permanent, a conflict or an unknown outcome.
- EditConsequences.CacheRefinesStore: is for quiet runs: another writer is excluded, an overtaken read or a late write that is not harmless makes it false.
- EditConsequences.NoConflictWithItself: assumes reports that cover what the script did and no discard during a flush, because a retried unknown outcome may meet its own earlier commit.
- Spool.EntriesAreBounded: does not count an empty file that stays behind when setting its permissions and then unlinking it both fail (`src/output.rs:1937-1950`); it has neither slot nor tombstone, and no length to charge.
- The runner's check that the parents in a batch lie under the root, and its rewriting of them.
- Splitting a remote path at `.` and `..` components beyond what the batch arguments need, and other path validation.
- Search cancellation and deadlines, the directory walk, globs and the encoding of records.
- The patch envelope, paths, moves and UTF-8 decoding: text is a sequence of scalars with their UTF-8 length.
- `PreparedShellWord` and capacity limits of quoting; the tokenizer treats unquoted operators and expansions as unsupported input.
- Retention job slots, random tokens, file creation errors other than the ones that leave a file behind, and time to live: an entry may expire at any moment.
- Reading internal captures by path: the owner that keeps them is modelled, its readers are not.
- The content of diagnostics scanned from standard error.
- The steps between the system calls of a job step, the command itself and its signals; a deletion unlinks all files at once.
- Capability.CallsAgree: needs that no result has been discarded, because a discard can make it false.
- The parsing of capability records and the choice of a shell.
- JSON parsing, parameter validation, rendering and frame size arithmetic of the MCP server: they are the verdicts a frame carries.
- The writer task of the MCP server: what it suppresses after closing is less than what was sent to it.
- Lock poisoning, allocation failure and thread aborts.
- SSH processes, port forwarding, mounting, installation and configuration.
