# Verified cores of the Asterism agent engine

This project models, in Dafny 4.11, the small stateful cores on which the engine's promises
rest, and proves those promises for every input, every run and every interleaving of the
steps modelled. Where the C or Python code changes state step by step, the model is a class
or a loop that does the same, proved against a specification function or predicate; lemmas
about those specifications state what a reader may rely on.

`dafny verify dfyconfig.toml` checks everything.

| files | what they model |
|---|---|
| `Consumption`, `ConsumptionFacts`, `OperationReplay`, `Operations`, `OperationRuns`, `OperationRecords` | the reserve/settle journal of token consumption, its streaming daily totals, crash replay through an open-addressing table, and all runs of begin, end, clock, failed append and restart |
| `Approvals`, `Confirmations`, `ConfirmationRuns` | the approval log and its legal histories; the race between a waiting worker and the hosts that decide, and what whole runs of it promise |
| `TopK`, `Tiling`, `Admission`, `Evidence`, `RetrievalSelect` | evidence selection: UTF-8 tiling, a shortlist per file, one bounded heap, and what is left out |
| `StreamJob`, `AcpStream` | a 256-slot event ring and the forwarder that must end having sent exactly the answer |
| `ExcerptWindows`, `Excerpt`, `ExcerptReader`, `ExcerptShown`, `ExcerptBuild` | diagnostic excerpts within a byte budget, read back from their bytes |
| `RedactPatterns`, `RedactShapes`, `RedactMasks`, `RedactRuns`, `RedactScan`, `Redact`, `RedactRewrite`, `RedactTable` | the secret scanner and its rewriting |
| `RequestTrace`, `RequestDigest` | the framed stream hashed for a model's whole input |
| `EmbedFormat`, `EmbedLayout`, `EmbedRoundTrip`, `EmbedCache` | the embedding cache file |
| `Items`, `GgufFormat`, `GgufRewrite`, `GgufScript`, `GgufWriter` | adding a metadata key to a GGUF file, held to a writer of whole files |
| `Draft`, `DraftText`, `DraftBudget`, `ActionLoop`, `ActionPasses` | drafting with continuations over the engine's reservations, and when it ends; the bounded decision loop and the gate after it |
| `ContextHistory`, `HistoryText` | the greedy choice of past turns under a token budget, and the text it makes |
| `Statuses`, `Utf8`, `Utf8Meaning`, `Words`, `LittleEndian`, `Basics` | shared: status codes, UTF-8 (sections 3 and 4 of RFC 3629), ASCII words, integers as bytes |

## What turned out to be false, or true only on a condition

- Replay after a restart rebuilds today's totals exactly when the reload clock is not behind
  the live day, or some row of the journal is of the live day (`OperationRuns.ReplayRebuilds`).
  Otherwise the live engine had rolled to a day that left no row behind
  (`OperationRuns.ReplayMayDiffer`).
- Settling is refused for one reason only: the lifetime charge would leave 64 bits
  (`OperationRuns.SettlementFailsOnlyOnOverflow`). Today's charge can exceed the daily budget,
  by no more than known usage exceeded its reservations (`OperationRuns.DailyBudgetHolds`; one
  such run in `OperationRuns.BudgetIsExceeded`); in a run whose settlements stay within their
  reservations it never does (`OperationRuns.ModestRunsKeepBudget`).
- A call can return with its approval still live: exactly when the store already needs recovery
  or the closing record cannot be stored (`Confirmations.ReturnsLeaveLiveIff`; one such run in
  `Confirmations.ReturnLeavesLive`). From then on no
  prompt is allowed in any run until the session is reopened (`Confirmations.LeftLiveBlocks`,
  `Confirmations.StuckUntilReopened`).
- A saved vector comes back to its own entry exactly when the entry spells its id canonically:
  saving accepts other spellings of a UUID, loading only the canonical one
  (`EmbedRoundTrip.VectorsComeBack`; one that is lost in `EmbedRoundTrip.RespelledLosesVector`).
- When the key added to a GGUF file is the alignment itself, the padding is still computed for
  the old alignment. The new file keeps all it said exactly when the value is positive and both
  alignments put the tensor data in the same place (`GgufRewrite.AddingKeepsMeaningIff`,
  `GgufRewrite.AlignmentKeyMovesData`; one file that loses its data in
  `GgufRewrite.AlignmentLosesData`).
- Drafting need not end by itself. With a session budget, only rounds that report no token go
  on beyond it (`DraftBudget.OnlyQuietRoundsGoOn`); but a reservation refused for lack of the
  day's tokens comes back as LIMIT, which drafting takes for a cut-off, so that a positive
  remainder smaller than the next reservation keeps the draft going without a call, without a
  token and without change until the day ends or the turn's deadline passes
  (`DraftBudget.DayLivelock`). Whatever its rounds reserve and report, a draft that is cut
  off every time runs on exactly while the arithmetic of its admitted calls stays within both
  budgets (`DraftBudget.RunsOnIff`), and for ever exactly when, within them, it comes to a point
  from which on every reservation is refused (`DraftBudget.RunsForEverIff`); `ActionLoop.HangsIff`
  says when a call hangs so, and without a day's budget the condition is closed
  (`DraftBudget.WithoutDayBudget`). The action loop's bound (`ActionLoop.Controller.Run`)
  therefore has one way out more, a pass hung in its draft, which a session budget and a
  talking model exclude (`ActionLoop.RunTurn`).
- The loop's guard against futile steps forces an answer without asking whether a required
  artifact was written. `ActionLoop.ForcedWithoutArtifact` says on what a pass starts from and
  meets exactly when that happens; one such turn is `ActionLoop.ForcedOnce`. The turn asks again
  right after the loop and refuses the response phase then (`ActionLoop.RunTurn`).
- The comment on the excerpt's selection speaks of avoiding duplicates; the code drops exactly
  the windows that neither start nor end after the end of the last window kept
  (`ExcerptWindows.Extend`), and overlapping ones are merged later.

## Model

| member | source | states |
|---|---|---|
| Consumption.ObserveTotals | src/consumption.c:6-30 | every counter moves by exactly the row's charge, or (a counter would leave 64 bits or go below zero) the row is refused and the caller keeps the counters it had; which counter gets what is ConsumptionFacts.TallyIsSums |
| Consumption.Observe | src/consumption.c:31-47 | a row is charged to lifetime and, after the day reset, to today together, or to neither; the update is committed only when both fit |
| ConsumptionFacts.TallyIsSums | src/consumption.c:13-30 | over every journal and window each counter is the sum that its name says: of the input, or output, of known settlements, of what unknown ones had reserved, of the deltas, and the numbers of reservations, failures, cancellations and unknown settlements |
| ConsumptionFacts.TallyBalanced | src/consumption.c:13-30 | over every legal journal and any window of days, charged is known input + known output + unknown + unsettled, and no counter is negative |
| ConsumptionFacts.ChargeFitsExactly | src/consumption.c:6-30 | after a legal journal the next row's charge is accepted exactly when the lifetime charge stays within 64 bits |
| ConsumptionFacts.OpenIsUnsettled | src/consumption.c:13-30 | the unsettled counters are the reservations that no settlement has closed |
| ConsumptionFacts.ObservedIsFilter | src/consumption.c:31-47 | one step of the streaming day reset keeps today equal to the declarative filter on the latest day |
| ConsumptionFacts.ReplayMeaning | src/operation_replay.c:33-66 | replay accepts exactly the legal journals, and yields lifetime totals and the totals of exactly the rows of the latest day, row days in any order |
| ConsumptionFacts.StepMeaning | src/operation_replay.c:33-57 | a row is accepted exactly when it legally extends the journal so far |
| OperationReplay.StopsOnce | src/operation_replay.c:18-24 | on a probe sequence only one slot is the key or free: the place a probe stops is determined |
| OperationReplay.FreeSlot | src/operation_replay.c:18-32 | at most half full, a table always has a free slot, so every probe ends |
| OperationReplay.ProbeDecides | src/operation_replay.c:18-24 | where a probe stops, the slot holds the key exactly when the mathematical map does, with the same binding |
| OperationReplay.StoreRefines | src/operation_replay.c:18-32 | storing at that slot is updating the map |
| OperationReplay.Table.SlotFor | src/operation_replay.c:18-24 | linear probing returns the slot of the key or a free slot on its way |
| OperationReplay.Table.Grow | src/operation_replay.c:25-32 | growing rehashes every binding and loses or invents none |
| OperationReplay.Table.Enter | src/operation_replay.c:36-52 | accepting, refusing and booking a row through the table is the decision over the map |
| OperationReplay.Loader.Observe | src/operation_replay.c:33-57 | one record of replay updates table and totals as the specification step does |
| OperationReplay.Visit | src/operation_replay.c:58-66 | replaying a whole journal through the table is the replay over maps, error for error |
| Operations.Engine.Record | src/operations.c:7-28 | totals move exactly when the row was stored; a failed append stops admission, durable or not |
| Operations.Engine.Begin | src/operations.c:29-59 | validation down to UTF-8 and a present but empty request id, day roll, daily admission and reservation in the source's order; active exactly when the reservation was stored, and then the journal's last row reserves that operation |
| Operations.Engine.End | src/operations.c:60-77 | an operation settles at most once; any failure requires recovery; after a success the journal's last row has its id, identity and day and the usage and outcome given |
| Operations.Engine.Load | src/operation_replay.c:58-66 | from any earlier projection: rebuilt from the journal, or kept and recovery required |
| OperationRuns.Invariant | src/operations.c:7-77 | in every state that any interleaving of begins, ends, clock readings, failed appends and restarts reaches, journal, projection and active operations agree |
| OperationRuns.ReachableConserves | src/consumption.c:6-30 | in every reachable state lifetime and today each conserve charge |
| OperationRuns.ReplayRebuilds | src/operations.c:7-77 | replay accepts the journal of every reachable state; outside recovery it gives the same lifetime totals, and the same projection if and only if the reload clock is not behind the live day or some row is of that day |
| OperationRuns.ReplayMayDiffer | src/operation_replay.c:58-66 | a reachable state, rolled to a day without rows, whose day's charge comes back when replayed by an earlier clock |
| OperationRuns.SettlementFailsOnlyOnOverflow | src/operations.c:60-77 | settling an active operation never underflows, whatever days have rolled by |
| OperationRuns.DailyBudgetHolds | src/operations.c:45-59 | today's charge exceeds a positive daily budget by at most what known settlements used beyond their reservations |
| OperationRuns.NoOvershoot | src/operations.c:45-75 | with known usage within reservations that excess is zero |
| OperationRuns.ModestRunsKeepBudget | src/operations.c:45-75 | over every run whose known settlements stay within their reservations the day's charge never exceeds a positive daily budget |
| OperationRuns.BudgetIsExceeded | src/operations.c:60-75 | a run of one reservation within the budget whose known usage exceeds it |
| OperationRecords.LegalIffSound | src/operation_replay.c:36-52 | by positions: a journal is legal iff every row fits those before it, a reservation a new id and room for a row, a settlement the one reservation of its id, identity and day that no earlier row settles, with a delta that makes the charge what was used, and all charges 64 bits |
| OperationRecords.ReachableCounts | src/consumption.c:6-47 | in every reachable state outside recovery each live counter is the sum over the journal, or over its rows of the day, that its name says |
| OperationRecords.AdmittedIff | src/operations.c:29-59 | in every reachable state a request is answered by what it says, the sums of the journal and the fate of the append, in that order; what is admitted reserves just that, on the current day |
| OperationRecords.SettledIff | src/operations.c:60-77 | so is a settlement; one stored follows the journal with the use and outcome reported, any other requires recovery |
| Approvals.Store.Save | src/approval_store.c:19-45 | guarded append: sequence numbers, refusal of illegal successors, recovery after a failed append |
| Approvals.Store.Transition | src/approval_store.c:46-62 | a transition saves the current record with a new status |
| Approvals.Store.Load | src/approval_replay.c:5-45 | replay record by record, then interrupt what was live |
| Approvals.AcceptsIsLegal | src/approval_replay.c:5-28 | the replay loop accepts exactly the legal histories |
| Approvals.LegalIffBlocks | src/approval_codec.c:90-113 | a history is legal if and only if it is a numbered run of blocks PENDING, then DENIED, INTERRUPTED or APPROVED, then CONSUMED, INVALIDATED or INTERRUPTED |
| Approvals.ConsumedWasReviewed | src/approval_codec.c:90-113 | each CONSUMED record follows APPROVED, which follows PENDING, of one id with identical bound fields |
| Approvals.SaveKeepsCoherent | src/approval_store.c:19-45 | saves keep the log legal and memory equal to its end, and only extend it |
| Approvals.LoadInterrupts | src/approval_replay.c:29-45 | a successful load leaves no live approval |
| Approvals.LoadReopens | src/approval_replay.c:5-45 | what a load answers and leaves on disk: an illegal history is refused as it is, a live record is followed by one that interrupts it with its id, reviewed fields and scope, any other history stays as it is |
| Confirmations.Invariant | src/confirmation.c:64-130 | every interleaving of worker, hosts, cancellation, expiry, edits, failed appends and restarts keeps slot, worker, record and log consistent |
| Confirmations.AllowedOnlyIfApproved | src/confirmation.c:97-130 | an allowed prompted call has its CONSUMED record durable after APPROVED and PENDING of the same fields, the host approved that id, and the workspace last seen is the one reviewed; by which actions is ConfirmationRuns.AllowedWasChecked |
| Confirmations.GrantsComeFromApprovals | src/confirmation.c:57-62 | an unprompted call is allowed only under a consumed session-wide approval of the same key |
| Confirmations.ReturnsLeaveTerminal | src/confirmation.c:112-119 | unless the store failed since the session was opened, no call returns with its approval still live |
| Confirmations.ReturnsLeaveLiveIff | src/confirmation.c:112-119 | in every reachable state a return leaves an approval live exactly when it closes one that cannot be stored as closed, or one was live before |
| Confirmations.ReturnLeavesLive | src/confirmation.c:112-119 | a run whose return leaves its approval live: a cancelled prompt and a closing record that fails to be stored |
| Confirmations.StuckUntilReopened | src/approval_store.c:19-24 | once idle with a live approval or in need of recovery, every run without a reopening keeps the store as it is and allows no prompted call |
| Confirmations.LeftLiveBlocks | src/approval_store.c:19-24 | an approval left live by a return blocks every later prompt, over every later run |
| Confirmations.DecisionsAreFinal | src/api.c:961-966 | repeating a decision succeeds, contradicting it is refused, and neither changes anything |
| ConfirmationRuns.FlagsMean | src/confirmation.c:98-98 | at every point of a run the turn is neither cancelled nor expired iff every cancellation and expiry before it is followed by a new turn or a reopening |
| ConfirmationRuns.TakenWhenDue | src/confirmation.c:73-96 | a waiting prompt is taken up exactly when waiting failed, the host decided, or the turn was cancelled or expired since it began |
| ConfirmationRuns.RecordsHaveWriters | src/confirmation.c:64-120 | every record of the log was written by the action that may write it: PENDING by a call with the workspace it saw, APPROVED or DENIED by a host's decision on an open prompt, a closing one by the call that was closing, INTERRUPTED also by a reopening |
| ConfirmationRuns.AllowedWasChecked | src/confirmation.c:97-122 | over every interleaving an allowed prompted call was approved by the host for that prompt, then checked with a valid selection and the workspace as reviewed in a turn neither cancelled nor expired by then, then closed by a record that was stored |
| ConfirmationRuns.VerdictIsStored | src/confirmation.c:97-122 | in every reachable state in which a prompt was taken up, for every outcome of the check: which record ends the log, CONSUMED, INVALIDATED, INTERRUPTED or still the denial, and what the call returns |
| ConfirmationRuns.BrokenStoreEndsWait | src/confirmation.c:73-80 | a store that needs recovery ends the wait of an undecided prompt, and the call is not allowed |
| ConfirmationRuns.PromptIsAnswered | src/confirmation.c:64-130 | after any run, a call without a grant that is prompted, decided in time, checked and stored returns as the host decided and leaves exactly the records of its approval and, if wide, a grant |
| ConfirmationRuns.GrantAnswers | src/confirmation.c:57-62 | a grant answers every call of its tool, command, package, workspace and profile at once, without a record |
| ConfirmationRuns.UnpromptedHasScope | src/approval_request.c:13-28 | an unprompted call is allowed only under a consumed session-wide approval of the same tool, command, package, workspace and profile |
| TopK.BetterIsOrder | src/retrieval_select.c:11-16 | the admission order is strict and total up to equal score, path and offset |
| Evidence.BetterIsAhead | src/retrieval_select.c:11-16 | better is a higher score, then the path that is less at the first byte where they differ, then the lower offset |
| TopK.TopIsUnique | src/retrieval_select.c:22-66 | with distinguishable chunks there is only one best k |
| RetrievalSelect.SiftUp | src/retrieval_select.c:41-49 | the rising loop restores the heap and permutes it |
| RetrievalSelect.SiftDown | src/retrieval_select.c:53-63 | the sinking loop restores the heap and permutes it |
| RetrievalSelect.RootIsWorst | src/retrieval_select.c:26-27 | the root is the worst chunk kept, so comparing with it is enough |
| RetrievalSelect.Selection.Retain | src/retrieval_select.c:22-66 | after any offers the heap region holds the best of all offered that fit behind the pinned chunks |
| RetrievalSelect.Selection.Shortlist | src/retrieval_select.c:83-124 | a file's shortlist holds its best CODE_FILE_CHUNKS tiles |
| RetrievalSelect.Selection.SelectFile | src/retrieval_select.c:67-131 | one file offers exactly its best few tiles, or nothing when it is binary or pinned already; a changed active file is refused |
| RetrievalSelect.Selection.SelectActive | src/retrieval_select.c:75-109 | the active file's tiles are pinned in order, all of them or the first 1024, or none when it is no text |
| RetrievalSelect.Selection.SelectFiles | src/retrieval_select.c:67-131 | after any sequence of files the heap is the best of the union of what each offers: it holds tiles of files that are text, and any other tile is crowded out, by a heap without room whose chunks are all at least as good or by eight such tiles of its own file |
| Evidence.LeftOut | src/retrieval_select.c:67-131 | the same of any selection: why a tile that is not kept is not |
| Admission.AdmissionIgnoresOrder | src/retrieval_select.c:11-66 | the admitted set does not depend on the order in which files are enumerated |
| RetrievalSelect.SelectTwice | src/retrieval_select.c:67-131 | two scans that meet the same files in different orders end with the same chunks in their heaps |
| Tiling.ChunkEnd | src/retrieval_select.c:88-96 | the backing-off loops find the tile end of the specification |
| Tiling.TilesConcatenate | src/retrieval_select.c:84-124 | tiles concatenate to the file |
| Tiling.TilesAreTiles | src/retrieval_select.c:84-124 | each tile is nonempty valid text of at most CODE_CHUNK + 3 bytes between character boundaries, it ends just after the last newline of its window when there is one, else at the window's end, and its lines are newline counts of the file's prefixes |
| Tiling.TileEndsAsItShould | src/retrieval_select.c:88-96 | where a tile ends, told by the bytes: with the file, after the last newline of 2048 bytes, or at the first boundary after them |
| Tiling.NewlinesCounted | src/retrieval_select.c:99-101 | the line counts are the numbers of positions of a newline |
| StreamJob.StoredIsFaithful | mcp/tasks.c:22-39 | an event not marked truncated is stored whole, and text stays text |
| StreamJob.StoredKeeps | mcp/tasks.c:22-37 | with memory a text is stored whole up to 4096 bytes, else as its longest beginning that ends on a boundary; truncated iff a byte was lost |
| StreamJob.ClipLosesLittle | mcp/tasks.c:26-30 | so valid text loses at most three bytes below the limit |
| StreamJob.Job.Emit | mcp/tasks.c:22-39 | the newest 256 events stay retrievable by cursor, each with all of its text or, if that is longer than 4096 bytes, the longest beginning of at most 4096 that ends on a boundary; truncated iff a byte was lost |
| StreamJob.Job.Poll | mcp/tasks.c:56-92 | a poll returns exactly the retained events from the cursor on, with next cursor and completion, and a gap iff more than 256 events lie beyond the cursor |
| AcpStream.Session.Feed | acp/stream.c:106-126 | what was sent is exactly the output of the events fed, none of it truncated; sixteen events a time, or all there are |
| AcpStream.Session.SliceEnd | acp/stream.c:78-86 | a slice is all that is left, or as much of 16384 bytes as ends between characters |
| AcpStream.Session.Terminal | acp/stream.c:69-93 | slices end between characters; a tick goes on until all is sent or 65536 bytes were, and the reply is queued exactly when all of the answer was sent |
| AcpStream.Session.Accept | acp/stream.c:130-154 | an answer that does not begin with what was sent is refused |
| AcpStream.Session.SentIsEmitted | acp/stream.c:106-126 | what was sent is a prefix of what the worker emitted |
| AcpStream.Session.Run | acp/stream.c:69-156 | for any schedule of events, completion and ticks, a reply means that the chunks concatenate to the answer; if outputs are a prefix of the answer the check against it never fails, whatever the wire refuses; and when all events are short and the forwarder keeps up, all output was sent before the answer came |
| AcpStream.Session.Drain | acp/stream.c:69-156 | once the turn ended with such an answer, polling reaches the reply |
| ExcerptWindows.WindowReaches | src/excerpt.c:28-36 | a window takes in every boundary that its width allows |
| ExcerptWindows.HitCovers | src/excerpt.c:54-66 | the window of a marker covers that marker |
| ExcerptWindows.CandidatesAscend | src/excerpt.c:54-70 | windows strictly ascend, on boundaries, of bounded width |
| ExcerptWindows.MergeShowsTheSame | src/excerpt.c:91-98 | merging shows exactly the bytes of the selected windows |
| ExcerptWindows.MergeTidies | src/excerpt.c:91-98 | merged spans are sorted, apart, on boundaries, in no more bytes |
| Excerpt.ViewFits | src/excerpt.c:99-113 | headers and decimal offsets included, the excerpt fits the budget and is valid text |
| Excerpt.DiagnosticsAreShown | src/excerpt.c:54-76 | the first and the last diagnostic marker are each shown whole |
| ExcerptShown.RecentIsShown | src/excerpt.c:54-76 | so is every marker with fewer later ones than the slots for the most recent |
| ExcerptShown.UnmarkedShowsEnds | src/excerpt.c:83-89 | of a text without a marker both ends are shown |
| ExcerptShown.ReasonsAreTrue | src/excerpt.c:54-98 | the reason of a span is that of a marker it shows, the first of the table there, or that windows were merged, or, without any marker, head or tail |
| ExcerptShown.MatchesAreMarks | src/excerpt.c:54-65 | the markers counted are the positions at which one starts |
| ExcerptShown.ViewHoldsMarks | src/excerpt.c:54-113 | the bytes of the first marker and of the most recent ones are in the excerpt |
| ExcerptReader.ComposedReads | src/excerpt.c:99-111 | an inverse reader gets back from the bytes alone the number of markers and, span by span, the offsets, the reason and exactly the bytes shown |
| ExcerptBuild.Builder.Keep | src/excerpt.c:67-75 | the fixed array keeps the first window and the most recent ones |
| ExcerptBuild.Builder.MergeInPlace | src/excerpt.c:91-98 | the in-place merge is the specification's fold |
| ExcerptBuild.Builder.Build | src/excerpt.c:43-116 | valid input within the budget limits is never refused; the LIMIT branch is unreachable; a text that fits is the excerpt, and the excerpt of a longer one reads back as its number of markers and its spans byte for byte and holds the first marker and the most recent ones |
| ExcerptBuild.TablesFit | src/excerpt.c:10-23 | the markers and wording in use meet what the arithmetic and the reader allow for |
| RedactPatterns.BestIsLongest | src/redact.c:270-285 | the match chosen is the longest of all patterns, the earlier pattern on a tie |
| RedactPatterns.BestIsInside | src/redact.c:110-285 | a match takes at least one byte and masks a nonempty part of what it takes |
| RedactPatterns.BestIsClean | src/redact.c:110-285 | in valid text every structural mask covers whole characters |
| RedactPatterns.RunIsUnique | src/redact.c:143-175 | the run a matcher measures is the only maximal one from there |
| RedactShapes.ShapeIff | src/redact.c:110-265 | text is matched by a pattern iff it has its shape, and the shape says what is taken and masked: a prefix and so many bytes, or all bytes of a class and at least so many, a block to its end line or the end of the text, all of a header's token after scheme and blanks, all of a key's value after sign and quote at a word boundary |
| RedactShapes.StructuralIff | src/redact.c:270-285 | what is taken at a position is the longest such shape, of the earlier pattern on a tie, and is none iff there is none |
| RedactScan.MatchPattern | src/redact.c:110-265 | each matcher's loops compute the specified match, which RedactShapes.ShapeIff describes |
| RedactScan.ScanStructural | src/redact.c:361-375 | regions are matches, follow one another, and no position outside them starts a match |
| RedactScan.RunIsSecret | src/redact.c:297-321 | a digit, a letter and the bar of the run's alphabet |
| RedactScan.ScanGap | src/redact.c:323-340 | exactly the qualifying maximal runs of a gap are masked |
| RedactScan.ScanEntropy | src/redact.c:377-383 | all gaps are scanned and nothing else |
| RedactMasks.MasksAreApart | src/redact.c:361-390 | structural and entropy masks are pairwise disjoint |
| RedactMasks.MasksAreClean | src/redact.c:361-390 | every mask of a valid text hides whole characters |
| RedactRuns.RunsAre | src/redact.c:323-340 | a run is masked for its looks iff it is 32 or more letters, digits and base64 signs in a row that no pattern took, as many as there are, with a digit, a letter and an entropy that clears the bar |
| RedactShapes.SecretsAreHidden | src/redact.c:361-390 | whatever has the shape of a secret, unless an earlier match took its first byte, is masked from the first byte of the secret to the last by one mask |
| Redact.RewrittenLength | src/redact.c:392-396 | the length computed beforehand is what is written |
| Redact.OutputKeepsTheRest | src/redact.c:399-418 | putting the masked bytes back where the tokens are gives the text up to the end of the last mask |
| Redact.OutputRestoresText | src/redact.c:399-421 | and with the rest of the output the whole text: every other byte is kept in order |
| Redact.OutputIsText | src/redact.c:399-421 | valid UTF-8 stays valid |
| Redact.OutputHoldsTokens | src/redact.c:399-418 | in place of each mask stands a quotation of the label and eight hexadecimal digits, those of the secret's digest |
| Redact.OutputHidesSecrets | src/redact.c:399-421 | the output depends on masked bytes through their digests only |
| RedactRewrite.SortByStart | src/redact.c:390-390 | sorting keeps the masks and orders them |
| RedactRewrite.Rewrite | src/redact.c:392-421 | every write is within the buffer, and the buffer is filled exactly |
| RedactRewrite.Redacted | src/redact.c:344-433 | nothing for a text without masks, else the text with each mask replaced by a 21-byte token, of the precomputed length, valid when the input is; every secret of a pattern's shape lies in one mask from its first byte to its last, and the masks are exactly those of the matches and the random runs between them |
| RedactTable.PatternsAreUsable | src/redact.c:117-265 | the patterns in use meet the assumptions of the proofs |
| RequestTrace.RoundTrip | src/request_trace.c:44-83 | an inverse decoder recovers grammar, schema, tools and messages from the stream, whatever follows it |
| RequestTrace.EncodingIsInjective | src/request_trace.c:44-83 | no two inputs have equal streams, nor one that continues the other's |
| RequestTrace.FieldRoundTrip | src/request_trace.c:11-16 | null and empty texts are told apart |
| RequestTrace.ToolsRoundTrip | src/request_trace.c:53-68 | absent tools and an empty list are told apart |
| RequestDigest.Trace.Word | src/request_trace.c:6-10 | eight bytes, least significant first |
| RequestDigest.Trace.Run | src/request_trace.c:44-90 | the nested loops hash the complete encoding while listing only the first 128 items and counting the rest |
| RequestDigest.ItemsAre | src/request_trace.c:57-82 | the items are each tool at its own place, then each block of each message at its own place, and no others |
| EmbedFormat.LengthCheckIsExact | src/embedcache.c:195-200 | the 64-bit length check admits exactly the files of a header and so many whole records; the product never wraps |
| EmbedLayout.ParseReads | src/embedcache.c:4-16 | by byte offsets: which files are read for a model and its dimensions, and that the k-th record is the id, hash and vector elements that lie k records after the header |
| EmbedFormat.AttachedIsExplained | src/embedcache.c:202-222 | for any file, a vector is attached only to an entry without one, of the record's id and query hash |
| EmbedRoundTrip.FileRoundTrip | src/embedcache.c:237-300 | the file written parses to the records of the savable entries |
| EmbedRoundTrip.VectorsComeBack | src/embedcache.c:121-124 | with distinct ids, every savable vector comes back bit-exactly to its own entry and nothing else is attached, if and only if every savable entry spells its id canonically |
| EmbedRoundTrip.RespelledLosesVector | src/embedcache.c:121-124 | a cache whose only vector is saved and does not come back |
| EmbedCache.Cache.EncodeVector | src/embedcache.c:91-102 | from the memory of a host of either byte order, the file bytes of the patterns that the host reads there |
| EmbedCache.Cache.DecodeVector | src/embedcache.c:77-88 | file bytes become memory in which a host of either byte order reads the file's patterns |
| EmbedCache.Cache.Save | src/embedcache.c:237-300 | header count and records agree, written at once |
| EmbedCache.Cache.Load | src/embedcache.c:132-231 | any failure degrades to no vectors and no error; otherwise records are attached one by one |
| EmbedCache.SaveAndLoad | src/embedcache.c:132-300 | save, restart and load give every savable vector back |
| Items.ItemsLocal | scripts/gguf_add_kv.py:50-66 | reading a list of self-delimiting items depends only on the bytes they occupy |
| GgufFormat.SkipValueLocal | scripts/gguf_add_kv.py:27-35 | skipping a value, arrays nested to any depth, depends only on its own bytes |
| GgufRewrite.RewriteKeepsMeaning | scripts/gguf_add_kv.py:74-90 | the rewritten file parses to the same pairs in order plus the new one, the same tensor entries and alignment, and an identical blob, which starts at an aligned offset |
| GgufRewrite.SecondRunFindsKey | scripts/gguf_add_kv.py:55-57 | whatever the key, the alignment's included, the header of the new file can be read and has it |
| GgufRewrite.AlignmentKeyMovesData | scripts/gguf_add_kv.py:49-90 | adding the alignment itself: the new file is well formed iff the value is positive, says the same pairs and the new one, tensor entries and version, and has the same data iff both alignments put it in the same place |
| GgufRewrite.AddingKeepsMeaningIff | scripts/gguf_add_kv.py:59-90 | for the format's own alignment key: whatever key is added, the file keeps all it said iff the key is another one, or its value is positive and moves no data |
| GgufRewrite.AlignmentLosesData | scripts/gguf_add_kv.py:74-90 | a small file to which the alignment 48 is added and whose readers no longer find the data |
| GgufScript.Script.SkipOne | scripts/gguf_add_kv.py:27-35 | the recursive skip moves the cursor past a well-formed value |
| GgufScript.Script.ScanPairs | scripts/gguf_add_kv.py:49-61 | finds the key if it is there, else ends past the pairs with the last alignment given |
| GgufScript.Script.AddKey | scripts/gguf_add_kv.py:38-92 | on any file whose header can be read: unchanged when the key is there, an exception when its alignment is zero or a number does not fit its field, else exactly the new file |
| GgufScript.AddTwice | scripts/gguf_add_kv.py:38-92 | a second run changes nothing, whatever the key and value |
| GgufWriter.ValSkips | scripts/gguf_add_kv.py:27-35 | any value that was written, arrays nested to any depth, is skipped whole, whatever follows |
| GgufWriter.WrittenReads | scripts/gguf_add_kv.py:38-74 | a file written from pairs, tensors and data is well formed and reads back as just them, with the alignment the pairs give last or 32 |
| GgufWriter.AddingIsWriting | scripts/gguf_add_kv.py:74-90 | adding a key other than the alignment gives, byte for byte, the file that would have been written with that pair last |
| GgufWriter.ScriptWrites | scripts/gguf_add_kv.py:38-92 | the script leaves a written file alone that names the key, and makes of any other the one written with it |
| Draft.JoinIsShortestMerge | src/draft.c:224-237 | joining by the longest overlap of at most 4096 bytes keeps all of both texts and is the shortest such merge |
| Draft.AcceptedIsKept | src/draft.c:224-239 | over any rounds, what a draft has accepted is never taken back |
| DraftText.AskedIff | src/models_shared.c:75-101 | the provider's text and tokens come back iff it was asked; they count as complete only when it said so and the settlement was stored |
| DraftText.DraftEnds | src/draft.c:104-311 | over every sequence of rounds: each round but the last was cut off, each grew the text by the shortest merge with what the model said, and the last ends the draft with that text, or leaves it to go on, or fails, by what the model said then, what was stored, and the budgets |
| Draft.Turn.Infer | src/models_shared.c:75-101 | reserve, ask, settle: a refused reservation never reaches the provider, a failed settlement overrides its answer |
| Draft.Turn.Generate | src/draft.c:108-217 | the phase is restored on every way out of a round |
| Draft.Turn.FileContent | src/draft.c:104-311 | the loop's outcome and what is left of the account, round for round, with the phase restored |
| DraftBudget.OnlyQuietRoundsGoOn | src/draft.c:223-281 | with a session budget, a draft still running has had fewer rounds than tokens were left, not counting rounds that reported none |
| DraftBudget.TalkingDraftEnds | src/draft.c:223-281 | with a session budget and a token for each cut-off round, drafting ends within the tokens left |
| DraftBudget.LongDraftsAreIdle | src/operations.c:49-54 | any draft that outlives the operations left in the journal is kept going by rounds that begin none |
| DraftBudget.RefusedDraftGoesOn | src/operations.c:7-54 | reservations refused for the journal, the day or a charge that leaves 64 bits, while budgets are not used up, keep the draft going for any number of rounds, with nothing changed |
| DraftBudget.DayLivelock | src/draft.c:264-282 | so it is whenever the day has something left, but less than any later call reserves |
| DraftBudget.WithoutDayBudget | src/draft.c:271-281 | without a day's budget what counts against the session's are the tokens of as many rounds as the journal still takes |
| DraftBudget.RunsOnIff | src/draft.c:223-282 | for any reservations and reports: a draft that is cut off every time is still running iff it started and what its admitted calls used is within both budgets |
| DraftBudget.RunsForEverIff | src/draft.c:264-282 | an endless sequence of such rounds is drafted for ever iff it started and within both budgets comes to a point from which on every reservation is refused |
| ActionLoop.WindowHasOther | src/action_apply.c:91-120 | in a bounded history every window one longer than the limit holds a step other than an accepted THINK |
| ActionLoop.PassKeeps | src/action_loop.c:22-177 | whatever the model answers, a pass goes on only after one counted step, a full row of THINK steps mutes THINK, only new questions are recalled, and ANSWER and the step budget respect a required artifact |
| ActionPasses.PassExits | src/action_loop.c:22-177 | on what a pass starts from and meets: exactly when it goes on, answers, asks back, hangs, runs out of steps, ends for futile steps or stops |
| ActionPasses.PassRecords | src/action_apply.c:91-171 | exactly what a pass adds to the history, and that it counts one step iff its decision is applied |
| ActionPasses.EscalatedOnce | src/action_loop.c:134-157 | the generator tier decides from a pass on iff the pass calls a tool in an invalid way or repeats a call again, and only the latter lifts the mute on calls |
| ActionPasses.EscalatesOnceALoop | src/action_loop.c:152-157 | repeated calls escalate in at most one pass of a loop |
| ActionLoop.HistoryKeeps | src/action_apply.c:91-171 | so the history never holds more THINK steps in a row than the limit, nor a question recalled twice, nor a fourth recall |
| ActionLoop.ForcedWithoutArtifact | src/action_loop.c:153-176 | a pass leaves with an answer forced and the artifact missing iff, on what it starts from and meets, its step will be applied and go on, be the second futile one in a row after a successful tool, and leave a required artifact unwritten |
| ActionLoop.ForcedOnce | src/action_loop.c:153-176 | one turn in which that happens |
| ActionLoop.Controller.Recall | src/action_apply.c:121-171 | in the fixed array of keys, only a new question, and only one of the first three, is recalled |
| ActionLoop.Controller.CallTool | src/tool_action.c:113-114 | a failed draft is reported before anything of the tool, a draft without end hangs the call, and the phase is the action phase again |
| ActionLoop.Controller.OnePass | src/action_loop.c:22-177 | the pass in place: budget, offer, decision, forgiven protocol errors, escalation and the futile guard as specified |
| ActionLoop.Controller.Run | src/action_loop.c:6-179 | for any model the loop ends within the steps left and one pass more, unless a pass hangs in its draft |
| ActionLoop.TalkingNeverHangs | src/draft.c:271-281 | with a session budget and a token for each cut-off round no call hangs |
| ActionLoop.HangsIff | src/draft.c:264-282 | exactly when a provider that is cut off every time, whatever is reserved and reported, hangs a call |
| ActionLoop.RunTurn | src/loop.c:357-374 | a whole turn ends so; no more THINK steps in a row than the limit and at most three distinct recalls; the response phase is entered only with the artifact, or to ask the user back |
| ContextHistory.GreedyIsMaximal | src/context_history.c:46-91 | used is the sum of the taken costs, within budget, and no eligible turn left out would fit in what remains |
| ContextHistory.GreedyIsUnique | src/context_history.c:46-91 | the two passes leave no choice |
| ContextHistory.ChosenAscends | src/context_history.c:93-99 | pinned and other turns are each rendered once, in chronological order |
| ContextHistory.Verbatim | src/context_history.c:20-113 | the selection is the greedy one, never with the in-flight message; text and token count are those of the turns taken |
| HistoryText.RenderedReads | src/context_history.c:6-99 | by its bytes the text is the turns taken, pinned ones first, either kind in chronological order, each as role, colon, text and newline, whole and once; it costs no more than the budget, and there is no room for any turn left out but the message being answered |
| Utf8.SplitValid | src/excerpt.c:28-36 | cutting valid text where the code tests for a boundary gives two valid texts |
| Utf8Meaning.ValidIff | src/util.c:169-220 | text is valid iff it is the encoding of some characters, each in its shortest form, none a surrogate |

## Left out

- Confirmations.Next: the confirmation slot, its condition variable and the grant array are modelled on values, one action for each critical section; in-place update and lock order are not captured, so safety is proved and deadlock freedom is not.
- Confirmations.AllowedOnlyIfApproved: calls allowed by policy before any prompt (read-only tools, automatic confirmation) are not modelled.
- OperationReplay.Visit: decoding of a row from its text, and rows as UTF-8 byte frames, are outside the model; a journal is a sequence of whole records.
- Operations.Engine.Record: the write-ahead log is an append that is stored, refused, or fails with or without reaching the disk; ids are fresh values.
- Approvals.Store.Load: decoding a record and its hash fields is outside the model; hashes are modelled as the fields they cover.
- RetrievalSelect.Selection.SelectFile: the admission score is any finite table of natural numbers, the cancellation check a script of outcomes; allocation failure is not modelled.
- RetrievalSelect.Selection.SelectFiles: the sort of the heap's chunks by path and offset after the last file is left out.
- AcpStream.Session.Run: the outcome, error mapping and session bookkeeping of the final reply are left out, and the permission and tool events drained before it; SHA-256 of what was sent is modelled as what was sent.
- AcpStream.Session.Accept: a missing answer field is not modelled; the job always reports one.
- Excerpt.ViewFits: stated for texts of at most 2^64 - 1 bytes, the range of the source's size type.
- RedactScan.RunIsSecret: the floating-point entropy bar is an arbitrary set of runs for each of the two alphabets.
- RedactRewrite.Redacted: SHA-256 prefixes are any eight digits for each masked text.
- RedactRewrite.SortByStart: the library sort is modelled as an insertion; masks that are apart have one sorted order.
- ExcerptBuild.Builder.MergeInPlace: the library sort before it is not modelled, since the spans strictly ascend already; that they do is proved.
- RequestDigest.Trace.Run: the rendering of listed items as JSON fingerprints is left out; their identity, order and number are kept.
- EmbedCache.Cache.Load: UUID text is canonical, another accepted spelling, or malformed; parsing it is not modelled. Stored floats are 32-bit patterns.
- GgufScript.Script.AddKey: nothing is stated about files whose header cannot be read, and Python's recursion limit is not modelled; a well-formed alignment is a four-byte value, because the script leaves its cursor four bytes into it.
- Draft.Turn.FileContent: prompts, checkpoints and the unwrapping of an outer fence are outcomes of the environment, and so is whether the deadline has passed; the test for control output is part of that outcome; a stall that the watchdog reports as TIMEOUT is one more failure.
- Draft.Turn.Infer: the engine is threaded as a value through the transitions that Operations.Engine performs in place; the model manager passes statuses on and does nothing else.
- ActionLoop.Controller.CallTool: tools, caches and verification are arbitrary effects that keep the phase; the text of notices, telemetry and the choice of model slot are left out.
- ActionLoop.Controller.Run: the refusal to start outside the action phase and the native action path are left out.
- ActionLoop.RunTurn: only the plan mode; caching, routing, the answer itself and the commit are left out.
- DraftBudget.RunsForEverIff: stated within one day, for reports of known usage and checkpoints that are stored, and for counters that the tokens still to be used cannot carry out of 64 bits; DraftBudget.RunsOnIff alike.
- ContextHistory.Verbatim: token costs are any finite table; the trace of reasons is left out.
- The write-ahead log, stream and filesystem layers, JSON and xCDN parsing, UUID, SHA-256 and the token counters: foreign to these cores.
- The semantic cache and the ledger: their replay repeats the consumption journal's argument with weaker guarantees.
- The single-threaded confirmation path and the fan-out of a decision over lanes.
- Model backends, OS shims, the configuration table, protocol dispatch, the terminal interface, SDKs and packaging.
- Routing keyword tables and prompt texts: data.
