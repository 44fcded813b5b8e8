# Verified models of the job-hunt server

The server keeps jobs, discovery sources and an agent-run queue behind a storage seam with two
back ends: files on disk and a SQL database. This project models its stateful and algorithmic
cores in Dafny and proves what they are relied on for, over all inputs and all histories. Classes
stand for the objects and module state that the code changes in place; each of their methods is
proved equal to a function of the old state, and the theorems are about those functions.

* **Runner queue** (`AgentQueue`, `AgentQueueHistory`, `AgentJobOutcomes`, `PgQueue`, `QueueStores`). Jobs are claimed under a lease
  and a single-use nonce, renewed, swept back, finished, cancelled and requeued. The array of the
  file store refines a small protocol over an event log; the protocol gives exactly-once results, and every finished
  row says what the one operation that ended it said.
  The SQL store is written as its own statements, with null comparing as unknown; table and array
  agree over whole runs, and where they part is stated exactly.
* **Page gate** (`Zip`, `ZipAnswers`, `PageGate`). A scan for the end record, a walk over the directory and
  a clamped read of the local data, paired with a writer for the same records and with a description of
  its answers on arbitrary bytes; the words of a document and the
  page objects of a PDF.
* **Frontmatter editor** (`Frontmatter`, `FrontmatterEdits`, `FrontmatterStores`, `FrontmatterRepeats`,
  `FrontmatterSpills`, `FrontmatterFolds`, `FrontmatterResaves`). An in-place line splice with a moving
  fence, proved surgical; proved to agree with the map patch of the SQL store through a reader of plain and
  double-quoted scalars; and the same patch saved twice, values on several lines included.
* **Canonical JSON** (`CanonicalJson`, `CanonicalEquality`, `CanonicalReading`, `TrackPacks`). Text over
  UTF-16 code units, self-delimiting, equal exactly up to key order, and the shortest text that a reader
  takes for the value; on top of it the content-addressed cache.
* **Blocking RPC** (`SyncRpc`). Main thread and worker as interleaved steps over one signal word.
* **Stream folding** (`StreamFold`, `StreamEvents`). The chunk pump and the cursor fold against one batch
  fold, and what a run shows of each kind of line.
* **Scheduler** (`Scheduler`, `SchedulerRuns`, `RunOutcomes`, `LateLaunches`). The runs map, the queue, the slots
  claimed for launches under way and the re-entrant drain, over every endpoint and callback that
  changes them.
* **Source runs** (`SourceRuns`, `SourceRunHistory`, `SourceRunOutcomes`). Launch, result ingest with
  crashes, and the two sweeps.
* **Source registry** (`SourceSerializer`, `SourceReading`, `SourceRoundTrips`). Reading and writing a
  source with its run records, proposals and unknown keys.
* **Smaller state** (`FailedLogins`, `Challenges`, `FileIngest`) and **calendar and timer
  arithmetic** (`Numerals`, `Calendar`, `AutoDraft`).

`Seqs` and `Options` hold facts and types that belong to no component. Run
`dafny verify dfyconfig.toml` to check everything.

## What the proofs found

* A late notify of the worker can wake the next call early (`SyncRpc.LateNotifyFails`). After a call
  that missed its answer, by that or by a timeout, no later call ever gets its own
  (`SyncRpc.TimeoutShiftsAnswers`).
* A requeued job keeps its place in the file store but not in the SQL store
  (`QueueStores.RequeueDiverges`). In general the stores answer a claim alike exactly when the first
  claimable record is the oldest (`QueueStores.ClaimAnswersExactly`).
* The slots that server/index.js:3493-3497 claims for source launches under way keep the queue within
  the limit (`LateLaunches.QueueAloneKeepsLimit`), but the request checks (server/index.js:4082 and
  6534) count neither them nor each other: such a request is safe exactly when they leave room, too
  (`LateLaunches.PostSafeExactly`, `LateLaunches.ClaimAndPostOverrun`).
* An insert into a job folder destroys a file that happens to carry its staging name
  (`FileIngest.InsertKeepsExactly`).
* A source key named like a property of every object, such as `toString` or `constructor`, is lost
  on the first save, although server/index.js:5225-5231 promises that unknown keys survive
  (`SourceRoundTrips.UnknownKeysSurvive`); and a source whose single address converts to nothing
  needs a second write to settle (`SourceRoundTrips.CanonicalIsIdempotent`).
* A pending challenge that is handed out again keeps its old place in the eviction order, and is lost
  exactly when that place and the new keys since reach the limit (`Challenges.LostExactlyToTheLimit`,
  `Challenges.RepeatedMayBeEvicted`).
* The cursor over a runner's progress follows it exactly up to 200 lines; once the file store's window
  is full it stalls for good (`StreamFold.WindowedPolls`, `StreamFold.FullWindowStalls`).
* Saving a patch of the frontmatter twice is harmless for single-line values exactly when the keys it
  removes occur once. A value on several lines changes the file at every save unless each of its further
  lines is the line of a key that the same patch removes (`FrontmatterResaves.RepeatedSaveExactly`,
  `FrontmatterResaves.HarmlessSpill`, `FrontmatterResaves.HarmfulSpill`).
* A value that has to be quoted and holds a backslash or a control character does not read back, so the two
  stores part on it (`FrontmatterStores.ScalarReadsBack`, `FrontmatterStores.StoresAgree`).
* The canonical text, and with it the row hash, does not depend on what an object holds under `__proto__`:
  copying the object loses it (`CanonicalEquality.CanonicalIff`).
* The result of a source run whose own record is gone ends whichever run of that source is running
  (`SourceRunOutcomes.IngestShows`).

## Model

| member | source | states |
|---|---|---|
| `AgentQueue.CountsOfStatus` | server/store.js:1248-1259 | the count reported for each of the six statuses is the number of rows with that status |
| `AgentQueue.CountsSumToRows` | server/store.js:1248-1259 | together they are all the rows |
| `AgentQueue.ExtremesOf` | server/store.js:1248-1259 | the reported heartbeat is the newest of any row and the reported wait the creation time of the oldest queued row, and each is some row's own |
| `AgentQueue.FileStoreQueue.SweepExpired` | server/store.js:1081-1097 | the in-place sweep returns every lapsed lease to the queue, or ends it once its attempts are used up, and touches no other row |
| `AgentQueue.FileStoreQueue.EnqueueAgentJob` | server/store.js:1099-1111 | one new queued row at the end |
| `AgentQueue.FileStoreQueue.ClaimAgentJob` | server/store.js:1113-1132 | sweeps, then leases exactly the first claimable row under the new nonce, or reports no work |
| `AgentQueue.FileStoreQueue.HeartbeatAgentJob` | server/store.js:1134-1146 | renews the lease only for the runner that holds the row; otherwise nothing changes |
| `AgentQueue.FileStoreQueue.AppendAgentJobProgress` | server/store.js:1148-1159 | keeps the last 200 lines of the holder's row |
| `AgentQueue.FileStoreQueue.CompleteAgentJob` | server/store.js:1177-1206 | refusal order: unknown, already finished, not the holder, wrong nonce; otherwise the row ends and its nonce is spent |
| `AgentQueue.FileStoreQueue.CancelAgentJob` | server/store.js:1208-1222 | ends a queued row only; finished rows answer idempotently, held rows refuse |
| `AgentQueue.FileStoreQueue.RequeueAgentJob` | server/store.js:1231-1246 | resets the waiting time of a queued row only |
| `AgentQueue.FileStoreQueue.RunnerQueueState` | server/store.js:1248-1259 | one pass computes the counts and extremes above and changes nothing |
| `AgentQueueHistory.StepAgrees` | server/store.js:1081-1246 | every operation moves each row exactly as the protocol's event log allows (refinement of the array by the protocol) |
| `AgentQueueHistory.ExactlyOnce` | server/store.js:1177-1206 | an accepted result carries runner and nonce of the job's latest claim, with no lapse since, and is the job's last event |
| `AgentQueueHistory.NoncesDistinct` | server/store.js:1113-1132 | no two claims share a nonce |
| `AgentQueueHistory.LapsedNonceNeverAccepted` | server/store.js:1081-1206 | a nonce whose lease lapsed is never accepted again, by anyone, for any job |
| `AgentQueueHistory.AcceptedAtMostOnce` | server/store.js:1081-1246 | over every interleaving of all operations by any number of runners, a job accepts at most one result, that of its latest claim |
| `AgentQueueHistory.ReachableRow` | server/store.js:1081-1246 | in every reachable queue: attempts at most 3, queued rows have attempts left, a nonce exists exactly while the row is held, held rows have a lease and a holder |
| `AgentQueueHistory.ClaimFindsWork` | server/store.js:1113-1132 | a claim finds work if and only if some row is queued or has a lapsed lease with attempts left |
| `AgentQueueHistory.RowsPersist` | server/store.js:1081-1246 | no operation loses or reorders a row or changes a finished one |
| `AgentQueueHistory.FinishedForever` | server/store.js:1081-1246 | a finished row is the same record in every later state of a run |
| `AgentQueueHistory.BoundedClaims` | server/store.js:1081-1246 | rows equal enqueues; claims equal the attempts recorded, so they never exceed three per job |
| `AgentJobOutcomes.EndedByOne` | server/store.js:1081-1222 | over every run a finished row was ended by exactly one operation and says what that one said: done with the reported result and no error, failed with the reported result and error or its default text, canceled while queued, or dead because the lease lapsed at the third attempt |
| `AgentJobOutcomes.LeaseFrom` | server/store.js:1113-1146 | a held row is under the lease of its holder's latest claim or heartbeat: ten minutes from then, claimed until the first heartbeat, running after it |
| `AgentJobOutcomes.ClaimTakesLapsed` | server/store.js:1081-1132 | a claim takes a held row from its holder if and only if the lease is over, and what the row then is |
| `AgentJobOutcomes.RowIsEnqueued` | server/store.js:1099-1246 | a row is the job that was enqueued, to its last field of work, and waits since then or since the latest honoured requeue |
| `AgentJobOutcomes.UnknownIsAnswered` | server/store.js:1134-1246 | an operation on an unknown id changes nothing, and what it answers |
| `AgentJobOutcomes.RowIsAnswered` | server/store.js:1134-1246 | the answer about a known row by the first reason that applies: finished, not the holder's, wrong nonce, not queued |
| `PgQueue.PgStoreQueue.Update` | server/pg-store.js:1092-1101 | one update statement: the rows for which the condition is true, and not null, are changed, and their ids returned |
| `PgQueue.PgStoreQueue.EnqueueAgentJob` | server/pg-store.js:1103-1110 | inserts one queued row |
| `PgQueue.PgStoreQueue.ClaimAgentJob` | server/pg-store.js:1112-1135 | sweeps, then leases some claimable row of minimal creation time, or answers no work when none is claimable |
| `PgQueue.PgStoreQueue.HeartbeatAgentJob` | server/pg-store.js:1137-1148 | one guarded update; the answer is whether it hit a row |
| `PgQueue.PgStoreQueue.AppendAgentJobProgress` | server/pg-store.js:1150-1162 | appends to the transcript of the row that the guard hits, without a window |
| `PgQueue.PgStoreQueue.CompleteAgentJob` | server/pg-store.js:1189-1214 | reads the row, refuses in the source's order, then updates it |
| `PgQueue.PgStoreQueue.CancelAgentJob` | server/pg-store.js:1267-1287 | reads the row, then updates it if it is still queued |
| `PgQueue.PgStoreQueue.RequeueAgentJob` | server/pg-store.js:1293-1313 | reads the row, then resets the creation time if it is still queued |
| `QueueStores.OtherOpsSimulate` | server/pg-store.js:1103-1313 | from the same rows, the SQL statements and the file store's loops answer every operation but a claim alike, and keep the same rows if and only if an appended transcript fits the file store's window |
| `QueueStores.SweepAgreesExactly` | server/pg-store.js:1092-1101 | the two sweeps leave the same rows if and only if no row runs out of attempts with an empty error, where coalesce and || differ |
| `QueueStores.SoundSweepsAlike` | server/store.js:1081-1097 | in every reachable queue there is no such row, because unfinished rows have a null error |
| `QueueStores.ClaimAnswersExactly` | server/pg-store.js:1112-1135 | a claim is answered alike whatever the table picks, if and only if the first claimable record of the swept array is older than every other claimable one |
| `QueueStores.StoresSimulate` | server/pg-store.js:1092-1313 | over whole runs, requeues included, the two stores hold the same rows after every operation while each claim finds its first record the oldest and each append fits the window |
| `QueueStores.StoresAnswerAlike` | server/pg-store.js:1092-1313 | and give the same answers |
| `QueueStores.FirstParting` | server/pg-store.js:1092-1313 | at the first operation of a run where that fails the stores do part: the claim can be answered differently, the append leaves different rows |
| `QueueStores.IncreasingCreationSuffices` | server/pg-store.js:1112-1135 | without requeues and with jobs created at increasing times every claim meets the condition |
| `QueueStores.RequeueDiverges` | server/pg-store.js:1293-1313 | after a requeue of the job that the array still offers first, a claim is answered alike if and only if no other job is claimable |
| `Zip.ScanForEnd` | server/quality-gate-lib.js:76-84 | the backward scan returns the last end signature within the 65557-byte window, or none |
| `Zip.ReadZipEntry` | server/quality-gate-lib.js:76-106 | on arbitrary bytes the loops end, every integer read is in range, and the answer is that of the directory walk |
| `Zip.ReadZipLocalData` | server/quality-gate-lib.js:108-124 | local header checks, a slice that must lie inside the file, stored or inflated bytes, nothing on any other method or a failing inflate |
| `Zip.EndFound` | server/quality-gate-lib.js:76-84 | the scan finds the written end record if and only if no end signature follows it |
| `Zip.RoundTrip` | server/quality-gate-lib.js:76-124 | reading any written archive (sections 4.3.7, 4.3.12 and 4.3.16 of PKWARE APPNOTE.TXT) gives exactly the contents of its first member of the name, and nothing when it has none |
| `Zip.RoundTripBytes` | server/quality-gate-lib.js:108-124 | stored bytes, or bytes deflated by an inverse of inflate, come back unchanged |
| `ZipAnswers.AnswersExactly` | server/quality-gate-lib.js:76-124 | on any bytes at all some data is read for a name if and only if the last end record points into the file at a chain of directory headers, the first of which with that name points at a local header with that data, stored or deflated, inside the file |
| `PageGate.TokensApart` | server/quality-gate-lib.js:39-48 | no page token starts inside another |
| `PageGate.MatchesAreAll` | server/quality-gate-lib.js:39-48 | the page count of a PDF is the number of places where a `/Type` is followed, but for white space, by the whole word `/Page` |
| `PageGate.RenderedWords` | server/quality-gate-lib.js:129-144 | the words counted in a rendered document are those of its stretches of text, entities read as spaces: no tag hides, adds or fuses words |
| `PageGate.ExtensionIs` | server/quality-gate-lib.js:148-151 | a name has an extension if and only if it ends in a dot and that extension, in any case |
| `PageGate.BlockedExactly` | server/quality-gate-lib.js:139-188 | a file is blocked if and only if its kind is capped and it goes for a PDF with more page tokens than the cap, or else for a DOCX whose document can be read and holds more words than the cap's pages |
| `PageGate.VerdictExactly` | server/quality-gate-lib.js:148-188 | a verdict gives the cap of the kind and the pages: the page objects of a PDF, or the least number of pages that hold the words of a DOCX at 500 to the page; there is none if and only if the kind is not capped or there is nothing to measure |
| `PageGate.WrittenDocxBlocked` | server/quality-gate-lib.js:76-188 | a written archive is blocked as a DOCX if and only if the texts of its document hold more words than the cap's pages |
| `Frontmatter.UpdateFrontmatter` | server/lib.js:140-186 | the line-splicing loop with its moving end yields the text of the edited header, or refuses a file without two fences |
| `Frontmatter.SpliceField` | server/lib.js:164-184 | one splice removes, replaces or inserts exactly the key's first line before the fence and moves the fence with it |
| `FrontmatterEdits.RewriteIsIdentity` | server/lib.js:140-186 | splitting and joining gives the same bytes if and only if the line endings are uniform |
| `FrontmatterEdits.FenceExactly` | server/lib.js:154-160 | a fence is three dashes with nothing but white space around them |
| `FrontmatterEdits.OneKeyPerLine` | server/lib.js:164-184 | a header line belongs to at most one key |
| `FrontmatterEdits.WrittenLine` | server/lib.js:102-110 | a written line is found again under its own key if and only if its value is on one line, and is never another key's line or a fence |
| `FrontmatterEdits.EditUntouched` | server/lib.js:164-184 | every header line not keyed by the patch keeps its text and order |
| `FrontmatterEdits.RepeatIsNoop` | server/lib.js:164-184 | repeating an update changes nothing if and only if a removed key occurred at most once and a written value is on one line |
| `FrontmatterEdits.OtherKeysKept` | server/lib.js:164-184 | an update of one key leaves first line and uniqueness of every other |
| `FrontmatterEdits.UpdateCounts` | server/lib.js:164-184 | what an update does to the number of lines of its own and of any other key |
| `FrontmatterStores.RereadExactly` | server/lib.js:140-186 | the written text re-reads as the edited lines if and only if no written value holds a newline |
| `FrontmatterStores.Reread` | server/lib.js:140-186 | after an edit both fences are found again, around exactly the edited header, and the tail is byte-identical |
| `FrontmatterStores.BodyKept` | server/lib.js:140-186 | a file with uniform line endings keeps every byte from the closing fence on |
| `FrontmatterStores.BomInvisible` | server/lib.js:140-146 | nothing the editor reads depends on a leading byte-order mark |
| `FrontmatterStores.RunKeeps` | server/lib.js:140-186 | any sequence of edits keeps the tail and every line whose key none of them names |
| `FrontmatterStores.RepeatedSave` | server/lib.js:140-186 | saving the same patch again writes the same file, less a byte-order mark if two of them led the first one, when removed keys occurred at most once and values are on one line |
| `FrontmatterRepeats.NothingGained` | server/lib.js:140-186 | a save that leaves a file as it is brings, of any kind of line, no more than the keys of the patch can take |
| `FrontmatterRepeats.HarmlessIsSpare` | server/lib.js:140-186 | such a patch brings only lines of its own keys, one of each at most |
| `FrontmatterSpills.EditHalves` | server/lib.js:164-184 | an edit of two lists of lines in a row edits each under the keys that it finds there |
| `FrontmatterSpills.Placed` | server/lib.js:164-184 | a written value stands behind no line of its key, and a removed key has one line less before it than stood before the line it replaced |
| `FrontmatterFolds.StandsEdits` | server/lib.js:164-184 | the next save folds the lines that values spilled back into them: the edit of an outcome is that outcome |
| `FrontmatterResaves.RepeatedSaveExactly` | server/lib.js:140-186 | for every patch, from file to file: saving it again leaves the file alone if and only if every line it spills is the line of a key it removes, these keys and the other removed ones occur seldom enough, and it brings no CRLF into an LF file; for values without newlines, if and only if removed keys occurred at most once and values are on one line |
| `FrontmatterResaves.HarmlessSpill` | server/lib.js:164-184 | a family of values on two lines whose repeat is a no-op |
| `FrontmatterResaves.HarmfulSpill` | server/lib.js:164-184 | a value with a line of no writable key changes the file at every save |
| `FrontmatterStores.ScalarReadsBack` | server/lib.js:102-110 | reading back a written scalar (sections 7.3.1 and 7.3.3 of YAML 1.2.2) gives the value if and only if it is plain and read as itself, or quoted and free of backslashes and control characters |
| `FrontmatterStores.PatchFields` | server/pg-store.js:296-323 | the loop over the writable fields patches the map as a set of key updates would |
| `FrontmatterStores.StoresAgree` | server/pg-store.js:296-323 | text edited by the file store and map patched by the SQL store keep naming the same value for a key if and only if what the patch writes there reads back |
| `FrontmatterStores.FilesAgree` | server/pg-store.js:296-323 | the same from file to file |
| `CanonicalJson.RenderFree` | server/sync-lib.js:34-51 | rendered JSON is self-delimiting: equal texts with non-continuing rests come from equal values and rests |
| `CanonicalJson.RenderNoNewline` | server/sync-lib.js:34-36 | rendered JSON holds no newline (string escaping per section 7 of RFC 8259) |
| `CanonicalEquality.CanonicalIff` | server/sync-lib.js:34-51 | canonical texts are equal if and only if the values are equal up to object key order and up to what is filed under `__proto__` |
| `CanonicalEquality.CanonicalSplits` | server/sync-lib.js:34-51 | the same for canonical text followed by anything that cannot continue a numeral |
| `CanonicalEquality.RowPreimageIff` | server/sync-lib.js:53-55 | front matter and body are both determined by what the row hash covers, up to the same |
| `CanonicalEquality.FactsPreimageIff` | server/facts-lib.js:50-54 | and so are all three fact parts by the delimiter-joined text |
| `CanonicalReading.ReadsBack` | server/sync-lib.js:34-36 | rendered text, read by a reader with tables of its own (sections 2 to 7 of RFC 8259), is the value that was rendered, and what follows it is left over |
| `CanonicalReading.NothingShorter` | server/sync-lib.js:34-36 | no other text that reads as the value is as short: no blank, escape or digit can be saved |
| `CanonicalReading.SortDeepInOrder` | server/sync-lib.js:38-46 | in the sorted value every object, however deep, lists array indices first, by number (section 6.1.7 of ECMA-262), then the other keys by code units, and never `__proto__` |
| `CanonicalReading.SortDeepEquiv` | server/sync-lib.js:38-46 | and sorting changes nothing else |
| `CanonicalReading.CanonicalDenotes` | server/sync-lib.js:34-51 | canonical text denotes the value it was made from, with its keys in that order, and is the one shortest text that does |
| `CanonicalReading.RowDenotes` | server/sync-lib.js:53-55 | what the row hash covers reads as the front matter, a line feed and the body |
| `CanonicalReading.FactsDenote` | server/facts-lib.js:50-54 | what the facts hash covers reads as the resume, the experience and the cover letter, marked off by the delimiter |
| `TrackPacks.Cache.PutFactsDoc` | server/index.js:628-634 | replaces one of the fact documents that the key is computed from |
| `TrackPacks.Cache.PutTrackPack` | server/index.js:974-987 | stores under the key of the facts now held, refusing an unknown track |
| `TrackPacks.Cache.GetTrackPack` | server/index.js:961-972 | answers the pack under the key of the facts now held |
| `TrackPacks.PackHasPut` | server/store.js:1325-1338 | what stands under a key is the latest put under it |
| `TrackPacks.NeverStale` | server/index.js:961-987 | over every history a lookup returns only a pack put for that track when the latest document of every kind was the same as now up to key order, or exhibits two texts with one hash |
| `TrackPacks.HitsWhileFactsMatch` | server/index.js:961-987 | and it returns the last one put, as long as the latest documents stay equivalent |
| `SyncRpc.CallsInOrder` | server/pg-sync.js:32-47 | with the worker's store and notify as one step, in every interleaving without timeout the k-th call returns the k-th response |
| `SyncRpc.SleeperIsWoken` | server/pg-worker.js:53-66 | main never sleeps without an enabled worker step that brings the wake-up nearer |
| `SyncRpc.WakesWithinFour` | server/pg-worker.js:53-66 | four worker steps suffice |
| `SyncRpc.SplitCallsInOrder` | server/pg-sync.js:32-47 | with store and notify apart, order holds while no call starts under a pending notify |
| `SyncRpc.LateNotifyFails` | server/pg-worker.js:63-65 | from every state with a pending notify there is a run in which the next call finds no message and the one after gets the wrong answer |
| `SyncRpc.PendingNotifyReachable` | server/pg-worker.js:63-65 | such a state is reached by an ordinary first call |
| `SyncRpc.TimeoutShiftsAnswers` | server/pg-sync.js:32-47 | in every interleaving, timeouts and late notifies included, a call that returns an answer returns the one to the call as many places before it as calls missed theirs before it: its own if and only if none did |
| `SyncRpc.OnlyTimeoutsMiss` | server/pg-sync.js:32-47 | with store and notify as one step only timeouts miss an answer, and a sleeping call is never without a worker step to come |
| `SyncRpc.ShiftReachable` | server/pg-sync.js:36-39 | a first call that times out and a second that returns the answer to the first |
| `StreamFold.MatchRunStage` | server/lib.js:765-777 | the loop moves to the last stage behind the current one that the call hits, never backwards |
| `StreamFold.AgentEventToUpdate` | server/lib.js:786-840 | the block-by-block fill equals the event's update, and the stage never moves back |
| `StreamFold.Pump.OnData` | server/index.js:3954-3961 | one chunk applies exactly the complete lines of the buffered text and keeps the rest |
| `StreamFold.Pump.OnClose` | server/index.js:3967-3971 | the flush applies the unfinished last line |
| `StreamFold.ChunkInvariant` | server/index.js:3927-3971 | however the stream is cut, pump and flush leave the record of one fold over the whole text |
| `StreamFold.OutputIsLastOfTranscript` | server/index.js:3927-3953 | the output is the end of the unlimited transcript, up to 200000 characters of it, all other fields alike |
| `StreamFold.MatchIsMax` | server/lib.js:765-777 | matching is the maximum of the current stage and the last stage hit |
| `StreamFold.FoldAhead` | server/lib.js:786-840 | a fold that starts with a later stage stays at the later of the two, with the same transcript and statistics |
| `StreamFold.RunnerRun.FoldRunnerProgress` | server/index.js:3665-3690 | one poll applies exactly the lines past the cursor |
| `StreamFold.PollsAreOneFold` | server/index.js:3665-3690 | any number of polls of an append-only list equal one fold over its final lines |
| `StreamFold.NotesOnlyInActivity` | server/index.js:3708-3720 | notes on a waiting runner never reach transcript, milestone or statistics, and the latest shows as the activity |
| `StreamFold.FreshPolls` | server/index.js:4105-4121 | the view synthesized from the row, which starts at stage 0, shows the transcript and statistics of the run synced look by look, which starts at -1, and the later of stage 0 and the run's stage |
| `StreamFold.StoredIsWindow` | server/store.js:1148-1159 | cutting the transcript at every append keeps the last 200 lines of all that was reported |
| `StreamFold.AppendStores` | server/store.js:1148-1159 | an append is one such step on the row |
| `StreamFold.WindowedPolls` | server/store.js:1148-1159 | over the file store's window the polls take exactly the lines reported if and only if no more than 200 were reported, and then leave what one fold of them leaves |
| `StreamFold.FullWindowStalls` | server/index.js:3665-3690 | from the poll on that finds the window full the record stands still, whatever is reported |
| `StreamEvents.CrlfToLfIs` | server/lib.js:795 | normalised text is the lines of the original joined by line feeds |
| `StreamEvents.ResultShows` | server/lib.js:806-838 | a result clears the activity and leaves its statistics; a failure always adds a line that starts with its subtype; a success adds its tidied text if and only if it has one and no event before it brought any text |
| `StreamEvents.AssistantShows` | server/lib.js:792-803 | a turn adds what its blocks say in their order; the activity is the caption of its last tool call, the milestone the furthest reached or hit by one of them |
| `StreamEvents.OthersShow` | server/index.js:3930-3953 | the start names the activity, a line that is no event is shown as it is, blank and unrecognised ones leave no trace |
| `StreamEvents.WrittenLinesShow` | server/index.js:3954-3971 | whatever the chunks, the lines that a process wrote, and one more without its newline, leave the record of applying exactly these lines |
| `Scheduler.Server.RunningCount` | server/index.js:3447-3451 | the number of live records |
| `Scheduler.Server.HasPendingOrActiveRun` | server/index.js:3466-3482 | busy if and only if the pair is live or queued, and the id is not empty |
| `Scheduler.Server.PruneRuns` | server/index.js:3484-3490 | deletes the earliest started finished records beyond the history limit |
| `Scheduler.Server.StartRun` | server/index.js:3775-3880 | the record, task and runner job of each kind of launch |
| `Scheduler.Server.LaunchSourceRun` | server/index.js:6411-6425 | a launch whose discovery read answers later keeps its slot or its place among the posted ones until then |
| `Scheduler.Server.FinishSourceRun` | server/index.js:6426-6521 | a launch asked for by the queue gives its claimed slot back and drains the queue, from inside the drain if the read answered at once |
| `Scheduler.Server.OnDiscoveryRead` | server/index.js:4014-4017 | a waiting read answers: its launch lands, its slot is given back and the queue drained |
| `Scheduler.Server.ProcessQueue` | server/index.js:4004-4022 | the re-entrant loop terminates by queue length, counts the claimed slots, and leaves what the flat drain leaves |
| `Scheduler.Server.SyncRunnerRoutedRun` | server/index.js:3708-3739 | closes a run whose agent job ended or vanished, then drains |
| `Scheduler.Server.ReconcileRunnerRoutedRuns` | server/index.js:3744-3746 | the sweep over the growing map terminates and equals the sweep over every run |
| `Scheduler.Server.AdmitIds` | server/index.js:4286-4298 | a batch keeps the first mention of each fit and idle id |
| `Scheduler.Server.PostRun` | server/index.js:4035-4095 | sweep, then refusals in their order, then prune and launch |
| `Scheduler.Server.PostBatch` | server/index.js:4270-4304 | sweep, filter, queue, prune, drain; the total is what was queued |
| `Scheduler.Server.PostSourceRun` | server/index.js:6523-6542 | refuses only at the limit; the launch claims no slot |
| `Scheduler.Server.PostRunAllDue` | server/index.js:6559-6629 | queues the due sources that are not queued, prunes, drains |
| `Scheduler.Server.PostPropose` | server/index.js:6657-6680 | one live proposal run per source, within the limit |
| `Scheduler.Server.PostStop` | server/index.js:4203-4240 | syncs first, cancels a still queued agent job, kills a local process, otherwise refuses |
| `Scheduler.Server.OnTaskEnd` | server/index.js:3967-4000 | closes the record by the outcome of its task, unless it had ended before, and drains |
| `Scheduler.DrainedTwice` | server/index.js:4004-4022 | a drain right after a drain does nothing |
| `SchedulerRuns.AlwaysSafe` | server/index.js:3447-4302 | after any history, with discovery reads that answer at once or at any later time: live runs and launches under way within the limit unless one was admitted beyond it, every keyed (routine, id) live or queued at most once, no promised launch beside a free unclaimed slot unless a task is still to end, every live local run with a task to close it |
| `SchedulerRuns.AdmittedExactly` | server/index.js:4286-4298 | a batch takes exactly the fit, idle ids, each once |
| `SchedulerRuns.PruneKeepsLive` | server/index.js:3484-3490 | pruning drops no live run, drops the earliest finished first, and ends at the limit or at the live runs |
| `SchedulerRuns.SweepSettles` | server/index.js:3708-3746 | after the sweep no live run keys off an ended or vanished agent job, not even one the sweep launched |
| `SchedulerRuns.DrainKeepsPromises` | server/index.js:4004-4022 | a drain launches items from the front of the queue, each once and in order; only source launches may come later or to nothing |
| `RunOutcomes.RecordMoves` | server/index.js:3708-4240 | what one event may make of one record: nothing, the outcome of its agent job, that of its own task, a process error, or a stop; a new record is as its launch leaves it |
| `RunOutcomes.OutcomesAreEarned` | server/index.js:3708-4240 | over every history a run is done only if its task ended ok or its agent job succeeded, stopped only on request, failed only if it was not launched, its task ended badly or reported an error, or its agent job broke or is gone |
| `RunOutcomes.EndedForGood` | server/index.js:3708-4240 | a finished run whose process has closed keeps its record for as long as it has one |
| `RunOutcomes.TaskEndDecides` | server/index.js:3967-3974 | a live run is done, in the state after the drain, if its task ends ok, and has failed otherwise |
| `RunOutcomes.JobEndDecides` | server/index.js:3708-3746 | a poll of all runs finds a run done whose agent job succeeded, and failed one whose job broke or is gone |
| `RunOutcomes.StopDecides` | server/index.js:4203-4240 | a stop ends a run with a process, or with an agent job still queued, which is then broken; a claimed one keeps its record |
| `RunOutcomes.LiveKeysAre` | server/index.js:3447-3482 | the live keys are those of the records with status running, one for each |
| `RunOutcomes.VerdictExactly` | server/index.js:4035-4095 | each answer to a request for one run, if and only if its reason is the first that applies |
| `RunOutcomes.DueExactly` | server/index.js:6559-6629 | of the due sources exactly those join the queue that do not wait in it, in their order |
| `RunOutcomes.AdmittedInOrder` | server/index.js:4286-4298 | a batch keeps the order in which its ids were first named |
| `LateLaunches.QueueAloneKeepsLimit` | server/index.js:3493-4022 | while every launch goes through the queue, live runs and claimed slots stay within the limit, however late the reads answer |
| `LateLaunches.PromptReadsKeepLimit` | server/index.js:3447-6680 | where every read answers at once, requests and queue keep the limit together |
| `LateLaunches.LimitHoldsExactly` | server/index.js:4004-4022 | the limit holds for all that can come of the launches under way, in any order and with any outcomes, if and only if four counts of the state are within it |
| `LateLaunches.PostSafeExactly` | server/index.js:6523-6542 | a request for a source run passes its check when the live runs leave room; the limit holds for all that can come of it if and only if the claimed and posted launches leave room, too |
| `LateLaunches.StartSafeExactly` | server/index.js:3775-3880 | the same for any launch that starts at once |
| `LateLaunches.RunSafeExactly` | server/index.js:4035-4095 | a routine's request that passed its check is safe if and only if, after its sweep, live, claimed and posted launches left room |
| `LateLaunches.ProposeSafeExactly` | server/index.js:6657-6680 | and so is a proposal's request |
| `LateLaunches.ClaimAndPostOverrun` | server/index.js:6534-6542 | at a limit of one, a slot claimed by the queue and a posted launch both land, and two runs are live |
| `SourceRuns.Registry.FinalizeRunRecord` | server/index.js:5604-5621 | flips the record of the run, or else the running one, and caps the history |
| `SourceRuns.Registry.IngestSourceRunResult` | server/index.js:6931-7003 | files the validated finds whose link is not on file and flips the record as the row's verdict says |
| `SourceRuns.Registry.ReconcileRunnerSourceRuns` | server/index.js:7014-7070 | results first, then failures and vanished jobs on a fresh load; reports whether any record was stale |
| `SourceRuns.Registry.ReconcileStalledSourceRuns` | server/index.js:7087-7108 | ends exactly the running records past the stall age or without a start; reports whether there were any |
| `SourceRuns.Registry.LaunchSourceRun` | server/index.js:6411-6521 | both sweeps, then the running guard, then the optimistic record and the cadence anchor |
| `SourceRunHistory.LaunchSurvives` | server/index.js:5395-5398 | the new record survives the cap if and only if fewer than twenty stored records sort after it, so always on a clock that does not go back |
| `SourceRunHistory.IngestedQuiet` | server/index.js:6931-7003 | ingesting ends every running record of that agent job |
| `SourceRunHistory.SweepsLeaveHonestRecords` | server/index.js:7014-7110 | after both sweeps a running record is under the stall age, and a runner-routed one has a pending agent job |
| `SourceRunHistory.CrashedFilingRecovers` | server/index.js:6955-6989 | a filing that died after any number of finds and is run again leaves the jobs that one undisturbed filing leaves, whatever finds the store refuses for a taken folder, a missing employer or any reason of their own |
| `SourceRunHistory.RefusedForGood` | server/store.js:346-358 | a find that the store refuses stays refused as jobs are added |
| `SourceRunHistory.AlwaysOneRunningAndFiledOnce` | server/index.js:6411-7110 | after any history of launches, results, replays, crashes, sweeps and owner additions: one running record per source at most, no job filed for a link that an earlier job has, and no two jobs with one folder |
| `SourceRunOutcomes.IngestShows` | server/index.js:6931-7003 | after an ingest the record of its run succeeded, with the number of jobs added, if and only if the row is done with a list of at most 100 finds; it is incomplete if and only if the row is done without one, and failed with the row's error otherwise; jobs come from accepted lists only and other records stay |
| `SourceRunOutcomes.SweepShows` | server/index.js:7014-7108 | a sweep leaves finished records alone and ends a running one only by the result or the failure of its agent job, the loss of its row, or its age, with the reason for each |
| `SourceRunOutcomes.EventShows` | server/index.js:6411-7110 | what any event may make of the records of a source, a launch included |
| `SourceRunOutcomes.OutcomesAreEarned` | server/index.js:6411-7110 | over every history a succeeded record implies an earlier row of its source that was done with a list of at most 100 finds, or its own end here; likewise for incomplete and failed ones |
| `SourceRunOutcomes.LaunchExactly` | server/index.js:6411-6521 | each answer to a launch if and only if its reason is the first that applies, and what a launch leaves at the source and in the queue |
| `SourceRunOutcomes.FindsExactly` | server/index.js:6955-6989 | of the finds of a list those are taken, in order, that have a title and a link once trimmed and cut |
| `SourceRunOutcomes.FiledAre` | server/index.js:6963-6989 | every job that a list adds is one of its finds, in the folder named by title and employer |
| `SourceRunOutcomes.FolderWords` | server/lib.js:296-301 | a folder name has the words of the text without forbidden characters, and single spaces between them |
| `FailedLogins.Monitor.Record` | server/auth.js:378-426 | rolls the window, counts, writes the capped line and the one threshold line |
| `FailedLogins.Monitor.TakeSnapshot` | server/auth.js:429-433 | the live window with its true count, or nothing when it has no failure |
| `FailedLogins.DeriveAuthEvents` | server/index.js:2891-2927 | the fold over log and live window gives one notice per first threshold line, in order |
| `FailedLogins.LogIsExact` | server/auth.js:378-426 | the log holds, of each window, its first failures up to the cap and a threshold line if and only if its count reached the threshold |
| `FailedLogins.LinesNumberFailures` | server/auth.js:378-426 | the k-th failed line of a window says k, a threshold line says the count at which the alert fires |
| `FailedLogins.SnapshotIsExact` | server/auth.js:429-433 | the live view is the open window with the number of its failures and whether that reached the threshold, and nothing before the first failure |
| `FailedLogins.LogIsBounded` | server/auth.js:378-426 | over a time T at most (cap + 1) lines for each of T / window + 1 windows |
| `FailedLogins.FeedIsExact` | server/index.js:2891-2927 | one notice for exactly the windows that reached the threshold; the open one shows its true count |
| `Challenges.Store.Remember` | server/webauthn.js:138-158 | sweep, insert in place, evict from the oldest |
| `Challenges.Store.Take` | server/webauthn.js:160-166 | deletes whatever it finds and accepts only the right kind in time |
| `Challenges.NeverOverfull` | server/webauthn.js:138-171 | never more pending challenges than the limit, each key once |
| `Challenges.AcceptedOnce` | server/webauthn.js:138-171 | an accepted attempt answers an earlier, unexpired challenge of the same kind that no event named in between |
| `Challenges.FreshIsAccepted` | server/webauthn.js:138-171 | a challenge that was not pending when handed out is accepted in time while fewer than the limit are handed out after it |
| `Challenges.HandedOutIsAccepted` | server/webauthn.js:138-171 | a challenge, handed out for the first time or again, is accepted in time while the entries behind its place and the later hand-outs stay below the limit |
| `Challenges.LostExactlyToTheLimit` | server/webauthn.js:138-171 | where nothing expires or is taken in between, it is accepted if and only if the entries behind it at its hand-out and the new keys since stay below the limit |
| `Challenges.RepeatedMayBeEvicted` | server/webauthn.js:148-158 | a run in which a challenge handed out again is evicted by the very next one |
| `FileIngest.FileStore.AddJobFileIfAbsent` | server/store.js:638-658 | writes only when the name is free, through a staging file; otherwise reports same or different bytes |
| `FileIngest.FileStore.AddJobFileUnique` | server/store.js:669-697 | the loop stores under the first free candidate, or reports an unsafe or exhausted name |
| `FileIngest.FileStore.CreateJobIfAbsent` | server/store.js:614-630 | a new job with its file, or a conflict |
| `FileIngest.CreateExactly` | server/store.js:614-630 | a job is created if and only if its name is safe and free; then it is there with its document, and all else is as it was but for a file under the staging name |
| `FileIngest.CandidateExactly` | server/store.js:674-680 | the n-th candidate has the number between the stem and the extension, which starts at the last dot unless that is the first character |
| `FileIngest.CandidatesDistinct` | server/store.js:676-680 | no two candidate names of an upload coincide |
| `FileIngest.InsertKeepsExactly` | server/lib.js:132-136 | an insert keeps every stored file, and equals the table's plain insert, if and only if nothing sits under its staging name |
| `FileIngest.UniqueUpload` | server/store.js:669-697 | a unique-name upload touches no stored file; it stores under the first candidate that is not a safe, taken name if that one is safe, is refused if it is unsafe, and is exhausted if and only if all 500 candidates are safe and taken |
| `FileIngest.IngestIsLeftBiasedMerge` | server/store.js:638-658 | through the file store a batch leaves what was stored plus the first upload of each admissible name, when no name is another's staging name |
| `FileIngest.TableIngestIsLeftBiasedMerge` | server/pg-store.js:545-571 | through the SQL table every batch does, and the two then hold the same files |
| `FileIngest.ReplayIsNoop` | server/store.js:638-658 | replaying a batch changes nothing; each upload is refused or reported as same or different bytes |
| `FileIngest.NothingIsOverwritten` | server/store.js:614-697 | any mixture of inserts and unique uploads leaves every earlier file as it was, when no name ends in .tmp |
| `Numerals.DecimalRoundTrip` | server/store.js:678-679 | a decimal numeral determines its number |
| `Numerals.LessIsNumeric` | server/lib.js:980 | numerals of one length are ordered, as strings, as their numbers |
| `Calendar.CivilOfDay` | server/lib.js:948-951 | the date computed from a valid date's day number is that date |
| `Calendar.IsoOrderIsDayOrder` | server/lib.js:980 | ISO strings of valid dates are ordered as their days |
| `Calendar.MonthsOverflow` | server/lib.js:948-951 | a month past December is one of the next year, and days count on |
| `Calendar.AddDaysCountsDays` | server/lib.js:948-951 | from the year 100 to 9999 adding n days is counting n calendar days on |
| `Calendar.AddDaysEarly` | server/lib.js:948-951 | before the year 100 it never is |
| `AutoDraft.SelectionCounts` | server/lib.js:970-988 | of the jobs that are queued, without a CV, not private and due in the window, the pending ones are counted as skipped, as many others are selected as the cap allows, each once, and the rest is the overflow |
| `AutoDraft.SelectionIsMostUrgent` | server/lib.js:970-988 | what is selected is such a job and not pending, and nothing waiting behind the cap has an earlier deadline |
| `AutoDraft.SelectionIsInWindow` | server/lib.js:970-981 | a selected deadline lies between today and windowDays on, counted on the calendar |
| `AutoDraft.DelayFitsTimer` | server/lib.js:930-942 | the delay is between one second and 25 hours, inside a 32-bit timer |
| `AutoDraft.FiresAtNextTwo` | server/lib.js:930-942 | under an unchanging offset the timer fires at the next two o'clock, at most a day away, or in a second if that is sooner |
| `SourceReading.SourceReadsAs` | server/index.js:5233-5293 | what a load takes from any raw source, field by field: known words or the default, texts, the name or what the id comes to, the cleaned id or one made from the name, one address or a list, plain objects only |
| `SourceReading.RunReadsAs` | server/index.js:5174-5189 | what it takes from any raw run record: numbers or nothing, an unknown outcome as incomplete, an unknown trigger as manual |
| `SourceReading.ProposalReadsAs` | server/index.js:5199-5212 | what it takes from any raw proposal: an unknown status as pending, a stand-in for a missing id |
| `SourceReading.StringsExactly` | server/index.js:5235 | of a list those entries count whose text is not empty, in their order |
| `SourceReading.CleanedExactly` | server/lib.js:309-313 | cleaning an id keeps small letters, digits, points, underscores and dashes, in their order, and nothing else |
| `SourceSerializer.NormalizedOk` | server/index.js:5233-5307 | what a load makes of a source is in shape: known words, clean id, no empty strings, records and proposals in shape |
| `SourceSerializer.RunComesBack` | server/index.js:5174-5189 | a run record in shape is read back unchanged |
| `SourceSerializer.ProposalComesBack` | server/index.js:5199-5212 | a proposal in shape is read back unchanged |
| `SourceRoundTrips.FileReads` | server/index.js:5318-5385 | the file of a source in shape reads back as that source, without its empty objects and lost names |
| `SourceRoundTrips.CanonicalIsIdempotent` | server/index.js:5233-5385 | writing what was read is idempotent if and only if every address read is non-empty |
| `SourceRoundTrips.CyclesSettle` | server/index.js:5233-5385 | one load and save settles a source; further ones change nothing |
| `SourceRoundTrips.UnknownKeysSurvive` | server/index.js:5293-5307 | a key the serializer does not model survives any number of cycles with its value, except the names every object answers to, which are lost |

## Left out

- Express routing, cookies, rate limits, server-sent events, child processes, the workbook and its
  python, HTTP to Apify and the file watcher: their completions are events or parameters.
- The SQL engine, its locks and transactions: each method of the SQL store is one atomic step on a table.
- Clocks, minted ids and nonces are parameters; histories require minted values to be new.
- Hashing is a parameter. Nothing assumes that it is injective: where it matters the alternative is
  an explicit pair of texts with one hash.
- ClaimAgentJob: which of several rows of one creation time the SQL store leases is left open.
- The results of agent jobs reach the queue with status "failed" or anything else, as the store
  reads it; the artifact check in front of it (server/index.js:1034) is not modelled.
- RenderedWords: a stretch of text holds no `<`, as a writer that escapes it leaves it; other documents are
  covered by BlockedExactly in terms of the extracted text. The kinds are those that the artifact
  classification yields.
- RoundTrip: archives with an end signature behind the end record are excluded here; EndFound states
  exactly when the end record is found.
- ScalarReadsBack: the scalar reader takes `\x`, `\u` and `\U` escapes for malformed; the writer never
  writes them. Which plain texts resolve to other types is a parameter.
- StoresAgree: keys are plain: on one line, without a colon, outer white space or a leading dash. Of a key
  that occurs twice the first line is read, and each key is read by itself.
- FilesAgree: as StoresAgree.
- PutTrackPack: the shape check of the posted pack is not modelled.
- PutFactsDoc: nor is that of a posted fact document.
- TimeoutShiftsAnswers: the worker takes the next request after it has answered the last one. It may await
  several at once, but the database client answers them in the order of its requests, which is assumed.
- JSON numbers are given by their numerals. Whole records are hashed, so a cache miss on unchanged
  documents is possible and not excluded.
- NothingShorter: the reader takes hexadecimal digits in lower case only, as the serialiser writes them, and
  lets through any run of number characters as a number.
- ChunkInvariant: chunks are cut between characters; a cut inside a multi-byte character, and standard
  error, are not modelled. The labels of tool calls are data.
- FreshPolls: the progress list is append-only; WindowedPolls treats the file store's window.
- StartRun: what a launch comes to (a process, a replay, a runner job, a failure) is a parameter.
- Exceptions thrown inside a scheduler callback, and store reads that fail during a sweep, are not modelled.
- LaunchSourceRun: in the scheduler the reasons for which a launch is skipped (unknown or running source,
  spend gates, a full runner queue) are one parameter; a runner-routed source launch leaves no live record
  and counts as skipped there. SourceRuns models them.
- PostSourceRun: the checks for an unknown or already running source are left to SourceRuns.
- PostRunAllDue: which sources are due, and the read that comes before, are parameters.
- LostExactlyToTheLimit: takes and expiries in between are excluded; HandedOutIsAccepted covers them one way.
- AlwaysSafe: live means what the code counts. A stopped process that is still ending is not live.
- FinalizeRunRecord: durations and lead totals of a record are not modelled.
- IngestSourceRunResult: health counters and lead totals, and the wording of most error reasons, are not
  modelled.
- Sources are neither added nor removed during a history, and each agent-job
  row keeps the source it was queued for.
- AlwaysOneRunningAndFiledOnce: jobs are only added, and their links and folders are not edited.
- Key order and YAML text of the registry file, and a carrier key `_extra` written on disk by hand,
  are excluded. The closed vocabularies are parameters.
- LogIsBounded: the window length is positive; a negative length set by hand in the environment is excluded,
  and so are several monitors on one log.
- File names are compared exactly: a file system that folds case is not modelled. Times and kinds of files
  are dropped.
- AddDaysCountsDays: dates whose result lies beyond the year 9999 are excluded.
- DelayFitsTimer: the zone's offset is one of the two Eastern offsets at every instant; that a night has
  exactly one fire is not claimed, because around a change of offset it need not.
- Environment flags, roles and demo resolution, prompt texts, file-kind heuristics and the client under
  src/: case analyses without a deeper property.
