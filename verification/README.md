# GreenBubbles, verified

A Dafny 4.11 model of the parts of GreenBubbles whose correctness is not
obvious, with proofs. `dafny verify dfyconfig.toml` checks all of it.

GreenBubbles reads a chat client's encrypted databases while the client keeps
writing them, exports conversations as bundles of newline-delimited records,
browses them through a derived index, and plans how a team of agents reads
them. Five groups of modules follow that structure.

**Snapshots against a live writer.** `Volume` records what every name and file
was at each instant, whoever changed it, and whether a call then works, is
interrupted or fails; `Machine` offers the system calls, each at a later,
arbitrary instant. The writer obeys one rule, `Honest`: a change of
a file, or of what a name leads to, moves it to a fingerprint never used there
before. `Snapshot` captures a database set, `Planner` decides what to read
again, `Acquisition` retries, carries digests and chains manifests, and
`SourceDigest` encodes the evidence. Main results: a finished capture is what
the source held at one instant, files left unread held still beside it, by
induction over chains every recorded digest is true, the encoded evidence can be
told from its text, and while the source stands still nothing fails: whatever is
asked for is captured.

**The work planner, the shard driver and the tick.** `WorkPlan`, `Splitting`,
`Coverage`, `Packing`, `PlanTasks`, `Scopes` and `CommandPlan` make a plan from
the rows of the activity sidecar, and `PlanReads` says which instants its scopes
read. `DriverLog` is the log of everything a driver asks of the outside, which
answers as it pleases; `ShardDriver` works through one shard with retries and
budgets; `Checkpoint` says what runs and log mean together, and `Tick` is the
crash-resumable tick over all shards. Main results: greedy splitting is optimal,
packing meets Graham's bound, every instant of a kept conversation-month is read
by exactly one scope, agents stay within their limits by the log and no scope is
given up earlier, and no crash moves the checkpoint over a window that was not
planned from all of its rows and read.

**The history bundle and its index.** `LineScanner` scans a file in chunks,
`SourceFile` retains what was validated and reads ranges of it back,
`HistoryRecords`, `HistoryTables`, `HistoryDatabase` and `HistoryLoader`
validate, index and cache, `HistoryAcceptance` tells from the records alone which
bundles that accepts, `HistoryStore` and `LikeSearch` page, find neighbours and
search, and `OpenedStore` composes them. Main results: scanning equals splitting
at newlines, the cache is transparent, accepted bundles are closed, and what is
shown is what files opened by name held when they were validated.

**Browsing a source directly.** `BrowserRequests` is the event machine of
requests that are answered late and in any order. Main result: stale answers,
pages and hits alike, never show.

**Small algorithms with hard proofs.** `Utf8` (RFC 3629), `AcquisitionSurface`
(overlapping-window search), `Canonical` (field encodings).

`Wrappers`, `Sequences` and `Tasks` hold what the others share.

## Findings

- `scanNDJSON` counts a carriage return when it limits what stays buffered, but
  not when it limits a record. Whether a record close to the limit is accepted
  can therefore depend on how reads split the file: `CarriageReturnCounts` gives
  such a file, accepted one way and refused another, and `ChunkIndependence` the
  exact condition under which it cannot.
- A status report identifies a scope by window and conversation count. Fusing
  makes windows distinct, but clamping to the bounds of a tick can make two of
  them equal again: two scopes get one identity exactly when their conversation
  counts are equal and, at either end, their months are the same or both lie
  beyond the bound (`IdentitiesCollide`, `RecognitionIsExact`).
  `TwoRowsCollide` gives two rows of activity whose every plan records such a
  pair, and `FirstFinishesAll` what follows: the driver records the second as
  complete though it was never bound. Without bounds this cannot happen
  (`UnboundedRecognition`).
- A tick leaves out the months before that of its checkpoint. It takes that month
  from the UTC form of the checkpoint, while activity is counted per month of the
  corpus time zone. A window is counted whole exactly when the month has begun in
  that zone at the checkpoint (`WindowIsCounted`), and every window is exactly when
  no month of the zone begins later than in UTC (`WestOfUTCIsCutShort`). West of
  UTC, a conversation whose new messages all fall into the last hours of a month
  is left out of the plan, and the checkpoint can move past them
  (`LateHoursAreSkipped`).
- `messagesAround` may leave out its own target when more messages than it
  returns share the target's ordinal: `TargetIsChosen` is the exact condition,
  `TargetCanBeMissing` such a conversation.
- The group recheck of a snapshot looks only at the database when all files were
  cloned. The point in time holds all the same: it needs only the comparison of
  each copy with the baseline.

## Model

| member | source | states |
|---|---|---|
| `Volume.FileStable` | Sources/GreenBubblesCore/ReadOnlySnapshot.swift:484-572 | If a file has the same fingerprint at two instants, it was the same file with the same content at every instant between, for every writer that never reuses a fingerprint of a file |
| `Volume.NameStable` | Sources/GreenBubblesCore/ReadOnlySnapshot.swift:371-397 | The same for what a name leads to, across renames |
| `Snapshot.CopyBytes` | Sources/GreenBubblesCore/ReadOnlySnapshot.swift:536-562 | The read and write loops, with short reads, short writes and interruptions, assemble exactly the content of a file that stood still meanwhile |
| `Snapshot.CloneOrCopy` | Sources/GreenBubblesCore/ReadOnlySnapshot.swift:484-572 | A finished copy, cloned or copied, is the file the name led to when it was opened, as that file was at one later instant, whatever the writer did; while nothing happens to the file, it cannot fail |
| `Snapshot.UnchangedUntilOpened` | Sources/GreenBubblesCore/ReadOnlySnapshot.swift:373-385 | A name seen with a fingerprint and later copied with it showed that content at every instant from the look until the file was opened |
| `Snapshot.ReadBaseline` | Sources/GreenBubblesCore/ReadOnlySnapshot.swift:371-376 | Every planned file of the set was seen with its recorded fingerprint during the baseline reading |
| `Snapshot.CopyFiles` | Sources/GreenBubblesCore/ReadOnlySnapshot.swift:377-387 | All files are copied in order, each with the fingerprint of its baseline, or the attempt fails |
| `Snapshot.CheckGroup` | Sources/GreenBubblesCore/ReadOnlySnapshot.swift:389-398 | A passing recheck saw every file of the group again with its baseline fingerprint; it fails only when one of them did not stand still |
| `Snapshot.CaptureSet` | Sources/GreenBubblesCore/ReadOnlySnapshot.swift:371-407 | Point in time: for every interleaving with a writer, a finished capture holds exactly one file of role database, of the path of the set, and one of the WAL and of the shared memory exactly if the set lists such a path, of that path, and is what the source held together at every instant from the last baseline look until the first file was opened; files rechecked afterwards held still during all of the copying. It fails only if something happened to one of these files or a call had a reason to fail |
| `Snapshot.CapturedHolds` | Sources/GreenBubblesCore/ReadOnlySnapshot.swift:371-398 | The reasoning behind the capture: baseline, copies and recheck together give the point in time |
| `Planner.ReadInventories` | Sources/GreenBubblesCore/SnapshotAcquisitionPlanner.swift:368-412 | Every fingerprint of the inventory was looked up during the call, an optional file it does not list was looked for and not there, and a digest is present only if the previous inventory recorded it for the same role under the same fingerprint; it fails only if some file did not stay there or stay away |
| `Planner.InventoryMeans` | Sources/GreenBubblesCore/SnapshotAcquisitionPlanner.swift:454-475 | An earlier manifest is read by its evidence if it has any, and otherwise set by set from its entries: a file is on record exactly if an entry is about it, with the fingerprint and digest of such an entry |
| `Planner.MakePlan` | Sources/GreenBubblesCore/SnapshotAcquisitionPlanner.swift:155-255 | Which sets are read again, told field by field: outside incremental mode all of them; otherwise exactly those whose name, roles or fingerprints changed, and for reconciliation those unchanged whose newest file was modified within the window; deleted sets are those that are gone; the time of the last integrity scan is carried, or now; it is refused exactly without sets, for another account, for a negative window or an interval that is not positive, and otherwise fails only when some file did not stand still |
| `Planner.Classify` | Sources/GreenBubblesCore/SnapshotAcquisitionPlanner.swift:214-233 | The classification loop computes exactly the changed and the reconciliation sets |
| `Planner.VerifyForSnapshot` | Sources/GreenBubblesCore/SnapshotAcquisitionPlanner.swift:271-291 | A passing verification saw every set with exactly the files the plan lists, those it does not list absent, and every file of a set left unread with its planned fingerprint; it fails only if some file does not stand as planned |
| `Planner.CompareWithPlan` | Sources/GreenBubblesCore/SnapshotAcquisitionPlanner.swift:271-291 | The comparison passes exactly when every set has the name and the roles of the plan and, unless it is read again, their fingerprints |
| `Planner.FinalizedMeans` | Sources/GreenBubblesCore/SnapshotAcquisitionPlanner.swift:293-326 | Evidence names every planned file, with the fingerprint and digest of its entry or, without one, as the plan carried it; it is refused exactly when some file has neither an entry nor a carried digest |
| `Acquisition.OnceIsAlways` | Sources/GreenBubblesCore/SnapshotAcquisitionPlanner.swift:368-392 | A digest that once was the hash of a content under a fingerprint is the hash of the content under that fingerprint at all times |
| `Acquisition.DigestEntries` | Sources/GreenBubblesCore/ReadOnlySnapshot.swift:411-423 | Every captured file gets the entry that holds the hash of its captured content, in order; refused exactly when some content has not the length of its fingerprint |
| `Acquisition.SnapshotAttempt` | Sources/GreenBubblesCore/ReadOnlySnapshot.swift:357-447 | A finished attempt verified the plan, then captured every selected set at one instant, then verified the plan again; every file left unread was the planned one at all instants from the first verification to the last copy; every digest is read now, or carried under an unchanged fingerprint. It fails only if something happened to a planned file, or the plan neither carries nor reads some file |
| `Acquisition.UnreadStoodStill` | Sources/GreenBubblesCore/ReadOnlySnapshot.swift:363-409 | Seen as planned before the copying and after it, a file left unread was one and the same file with one content during all of it |
| `Acquisition.EntriesDocument` | Sources/GreenBubblesCore/SnapshotAcquisitionPlanner.swift:293-326 | Every digest of finished evidence is the hash of captured content, or what the plan carried for that file |
| `Acquisition.CreateSnapshot` | Sources/GreenBubblesCore/ReadOnlySnapshot.swift:325-355 | A success on any try is a full attempt of its own; every try makes one directory, at most one more are made than there are retries, none of them negative, and after a failure exactly that many |
| `Acquisition.Acquire` | Sources/GreenBubblesCLI/main.swift:227-243 | A success gives the instants and the plan of a run that follows from the previous manifest: planned against it, for the sets, the account, the mode and the selection the request asks for, then attempted in full. On a manifest without missing digests it fails only if the request is refused or the sets did not stand still as listed |
| `Acquisition.StandingSucceeds` | Sources/GreenBubblesCore/SnapshotAcquisitionPlanner.swift:271-326 | While the source stands still as listed, a plan just made of it carries or reads every digest it needs, and nothing can hinder the attempt |
| `Acquisition.Acquisitions` | Sources/GreenBubblesCLI/main.swift:227-243 | Acquisitions one after the other, each against the last manifest there is, make a chain of such runs, which serve some of the requests in their order; while the sources stand still and the requests fit together, they serve all of them |
| `Acquisition.LastScanIsKnown` | Sources/GreenBubblesCore/SnapshotAcquisitionPlanner.swift:195-247 | By induction over any chain, the manifests carry the time of its last full reading along, however many incremental runs there were since |
| `Acquisition.NoScanIsOverdue` | Sources/GreenBubblesCore/SnapshotAcquisitionPlanner.swift:195-211 | A run of a chain is incremental if and only if there was one before, nothing forces a scan, and the last full reading in the chain is within the interval; it is the bootstrap if and only if it is the first |
| `Acquisition.PlanningStaysTruthful` | Sources/GreenBubblesCore/SnapshotAcquisitionPlanner.swift:368-392 | A plan made on top of true digests carries true digests only |
| `Acquisition.FollowingStaysTruthful` | Sources/GreenBubblesCore/SnapshotAcquisitionPlanner.swift:293-326 | One acquisition on top of true digests records only true digests, and one for every file |
| `Acquisition.ChainIsTruthful` | Sources/GreenBubblesCore/SnapshotAcquisitionPlanner.swift:293-326 | By induction over any chain of runs, every digest the last plan carries and the last manifest records is the hash of the content its file has under its fingerprint, and no digest is missing |
| `Acquisition.CarriedEqualsRehash` | Sources/GreenBubblesCore/SnapshotAcquisitionPlanner.swift:271-326 | End to end: at the end of any chain, a file of a set that was not read again held one content throughout the copying, and its recorded digest is what rehashing it would have given |
| `Acquisition.CapturedBesideUnread` | Sources/GreenBubblesCore/ReadOnlySnapshot.swift:357-447 | A snapshot is consistent across its sets: at one and the same instant the database of a captured set, its WAL and its shared memory, each under the path the set lists, and every file left unread, under the path of its role, were there with the recorded fingerprint and a content of the recorded digest |
| `Acquisition.CapturedByName` | Sources/GreenBubblesCore/ReadOnlySnapshot.swift:461-469 | Where a set lists its files by their usual names, -wal and -shm behind the database, the same holds of each role by the path of that role |
| `SourceDigest.SourceFingerprint` | Sources/GreenBubblesCore/SnapshotAcquisitionPlanner.swift:328-366 | The nested update loops hash exactly the separated text of sets, files, fields and binding |
| `SourceDigest.WrittenOut` | Sources/GreenBubblesCore/SnapshotAcquisitionPlanner.swift:328-366 | A set with one file, and the binding behind the sets, written out character by character |
| `SourceDigest.FingerprintDetermines` | Sources/GreenBubblesCore/SnapshotAcquisitionPlanner.swift:328-366 | Equal texts come from equal sets, files, fields and account binding, for every text the planner can produce: identities and digests are hexadecimal, the database comes first, roles are distinct, and a path may hold any character but NUL |
| `SourceDigest.FilesAreDetermined` | Sources/GreenBubblesCore/SnapshotAcquisitionPlanner.swift:328-366 | Whatever the path before them holds, the files can be told from the end of the text, seven fields at a time, back to the database |
| `SourceDigest.EvidenceIsDetermined` | Sources/GreenBubblesCore/SnapshotAcquisitionPlanner.swift:328-366 | The same for inventories as the planner lists them: equal texts come from equal inventories, as long as identities do not collide |
| `WorkPlan.LoadActivity` | scripts/personal-memory-parallel.py:252-288 | There is one conversation for every alias with a row within the month bounds and no other; it has the kind and label of its first such row, and for every month the messages and own messages are the sums over its rows |
| `WorkPlan.SelectConversations` | scripts/personal-memory-parallel.py:393-430 | Keeps exactly the conversations that pass the filters, selected messages plus the dropped counters are all messages of the corpus, and each lost message is counted under the first filter it failed |
| `WorkPlan.KeptMonthsMean` | scripts/personal-memory-parallel.py:402-409 | Of a conversation of a gated kind, with a gate, exactly the months with at least as many own messages as the gate asks are kept, of any other all |
| `WorkPlan.CapConversations` | scripts/personal-memory-parallel.py:432-443 | Sorted by size, the largest are kept up to the conversation cap; under the message cap a conversation is skipped exactly when it would overflow with those kept before it; without caps nothing is lost |
| `WorkPlan.LargestAreKept` | scripts/personal-memory-parallel.py:432-434 | No conversation the cap leaves out is larger than one it keeps, and it leaves one out only when full |
| `WorkPlan.WithinBudget` | scripts/personal-memory-parallel.py:435-443 | The greedy message budget keeps a subsequence within the budget, and skips a conversation exactly when it would overflow with those kept before it |
| `WorkPlan.SomethingIsKept` | scripts/personal-memory-parallel.py:435-443 | The budget keeps nothing only when no conversation fits it |
| `Splitting.GreedyStaysAhead` | scripts/personal-memory-parallel.py:312-333 | If a rival piece began no later than the greedy one, the rival needs at least as many pieces for the rest |
| `Splitting.GreedyIsOptimal` | scripts/personal-memory-parallel.py:312-333 | No partition into such ranges has fewer pieces than the greedy one |
| `Splitting.SplitConversation` | scripts/personal-memory-parallel.py:312-333 | The tasks are consecutive ranges that cover all months once, each within the limit or a single month, and no partition with these properties has fewer |
| `Coverage.MergeSameWindow` | scripts/personal-memory-parallel.py:354-375 | The fused tasks have distinct windows and read every conversation-month exactly as often as the tasks before |
| `Coverage.CoveredOnce` | scripts/personal-memory-parallel.py:354-375 | Counted once means denoted by exactly one scope, which names the conversation once |
| `Packing.TotalLoadIsSum` | scripts/personal-memory-parallel.py:378-386 | The bins together hold all of the weight |
| `Packing.LargeTasksFit` | scripts/personal-memory-parallel.py:378-386 | While all tasks exceed a third of a limit that some distribution meets, the greedy rule meets it as well |
| `Packing.GreedyBound` | scripts/personal-memory-parallel.py:378-386 | Graham's bound: no bin exceeds (4/3 - 1/(3m)) times the heaviest bin of any other distribution |
| `Packing.GreedyMeanBound` | scripts/personal-memory-parallel.py:378-386 | No bin exceeds twice a limit that is at least the mean and at least the largest task |
| `Packing.IndexOfMin` | scripts/personal-memory-parallel.py:378-386 | The chosen bin is the first of the lightest |
| `Packing.PackShards` | scripts/personal-memory-parallel.py:378-386 | The shards are a multiset partition of the tasks, none empty; there are at most as many as were asked for, at least one being allowed, and their heaviest is within Graham's bound of every distribution over that many bins |
| `PlanTasks.FileMonths` | scripts/personal-memory-parallel.py:456-461 | Filing the months of a gated conversation adds exactly its kept counts to the monthly buckets |
| `PlanTasks.BucketTasks` | scripts/personal-memory-parallel.py:468-480 | The items of a bucket, larger counts first, are grouped without loss into scopes of that month; a group exceeds the limit only as a single item, and the first item of the next group would have overflowed it |
| `PlanTasks.OwnTasks` | scripts/personal-memory-parallel.py:457-466 | A conversation kept whole is read once in each of its months, split or not, with all of its messages |
| `PlanTasks.RangesCoverOnce` | scripts/personal-memory-parallel.py:312-333 | Consecutive ranges read each month once |
| `PlanTasks.CutTasks` | scripts/personal-memory-parallel.py:452-480 | Every kept conversation-month is read exactly once, dropped months of gated conversations never, no message is lost or counted twice, no task is above the limit or the heaviest single month, gated conversations are read month by month and others without bounds unless they exceed the limit |
| `CommandPlan.ArrangeShard` | scripts/personal-memory-parallel.py:502-512 | Sorting the fused scopes of a shard keeps their work, orders them by first month, and keeps windows distinct |
| `CommandPlan.CoveredInShards` | scripts/personal-memory-parallel.py:482-512 | A conversation-month counted once over all shards is denoted by exactly one scope of exactly one shard |
| `CommandPlan.ShareIsLimit` | scripts/personal-memory-parallel.py:449 | The limit is the one that was given if it is positive; otherwise the total divided by the shards asked for, rounded up, and at least one: no smaller number would do |
| `CommandPlan.ArrangedIsExact` | scripts/personal-memory-parallel.py:482-512 | Packing, fusing and ordering keep exact coverage, name kept conversations only, and make the aliases of a scope distinct |
| `CommandPlan.ScopeIsGrounded` | scripts/personal-memory-parallel.py:482-512 | A scope names only kept conversations, each with a kept month in its window |
| `CommandPlan.BuildShards` | scripts/personal-memory-parallel.py:447-512 | At most as many shards as were asked for, exact coverage, kept conversations only, and balance: with the default limit and no single conversation-month above it, no shard exceeds twice the limit |
| `CommandPlan.MakePlan` | scripts/personal-memory-parallel.py:389-545 | The whole plan from the rows: conversations as their rows describe them, filtered and capped, every kept conversation-month in exactly one scope of one shard and nothing else in any, totals that add up, the corpus total equal to selected plus dropped when there are no caps; refused only when nothing survives |
| `CommandPlan.PlannedHasMessages` | scripts/personal-memory-parallel.py:439-448 | A plan is never made for nothing |
| `CommandPlan.OneMonthCollides` | scripts/personal-memory-parallel.py:452-512 | In every plan of one shard that keeps one conversation whole and one by the month, bounds within a month that both have make the scopes of the two collide |
| `CommandPlan.TwoRowsCollide` | scripts/personal-memory-parallel.py:389-545 | A real input: two rows of one month, a contact and a group, planned for one agent with bounds within that month; there is a plan, and every plan of theirs records two scopes of one identity |
| `PlanReads.InstantReadOnce` | scripts/personal-memory-parallel.py:484-499 | Every instant of a kept conversation-month that lies within the bounds of the plan is between the bounds of exactly one recorded scope that names the conversation |
| `PlanReads.NothingElseIsRead` | scripts/personal-memory-parallel.py:484-499 | Whatever instant a recorded scope reads lies within the bounds of the plan, of a kept conversation, and in no month that a gate dropped |
| `PlanReads.WindowIsCounted` | scripts/personal-memory-parallel.py:1658-1660 | Counting from a month on misses no month of the window if and only if that month has begun at the lower bound |
| `PlanReads.WestOfUTCIsCutShort` | scripts/personal-memory-parallel.py:1658-1668 | Over all windows, as the month is taken from the UTC form of the checkpoint: no window is cut short if and only if no month of the corpus time zone begins later than that month of UTC |
| `PlanReads.UncountedIsUnread` | scripts/personal-memory-parallel.py:262-288 | A conversation without a row in a counted month is read by no scope |
| `PlanReads.LateHoursAreSkipped` | scripts/personal-memory-parallel.py:1658-1690 | An input that shows it: with the checkpoint in the last hours of a month where UTC is in the next one, a plan is made, and no scope reads the message a conversation got in those hours |
| `Scopes.IdentitiesCollide` | scripts/personal-memory-parallel.py:484-499 | Two planned scopes get one identity if and only if they have equally many conversations and, at either end, the same month or both months beyond the bound that clamps them |
| `Scopes.UnboundedNoneCollide` | scripts/personal-memory-parallel.py:354-375 | Without scope bounds, distinct windows never collide |
| `Scopes.ClampedIdentitiesCollide` | scripts/personal-memory-parallel.py:484-499 | With scope bounds within one month they can: a whole conversation and a group of that month, one conversation each, become indistinguishable |
| `DriverLog.RecognitionIsExact` | scripts/personal-memory-parallel.py:663-674 | Reports tell the scopes of a planned shard apart if and only if no two of its tasks collide: the condition over months, bounds and counts that can be checked before the run |
| `DriverLog.CollidingIsMistaken` | scripts/personal-memory-parallel.py:663-674 | Where two tasks collide, every report that shows the one scope complete shows the other complete |
| `DriverLog.UnboundedRecognition` | scripts/personal-memory-parallel.py:663-674 | A shard planned without bounds always tells its scopes apart |
| `DriverLog.FirstFinishesAll` | scripts/personal-memory-parallel.py:961-981 | The consequence at such an input: when all tasks collide with the first, reports about the first scope alone count for every scope, though no other was ever bound; by the contract of the run no agent is then invoked and the shard counts as complete |
| `DriverLog.WitnessIsGenuine` | scripts/personal-memory-parallel.py:663-674 | With distinguishable scopes, a report that made the driver finish a scope was about that very scope, complete |
| `DriverLog.InvocationsAreAll` | scripts/personal-memory-parallel.py:982-1044 | Every agent on the log is one invocation, and without agents there is none |
| `DriverLog.InvocationMeans` | scripts/personal-memory-parallel.py:982-1044 | An invocation is seen by the last report before its agent and the first report after it, for the scope it was sent to |
| `DriverLog.TailGrows` | scripts/personal-memory-parallel.py:1021-1044 | An invocation either extends the run of idle ones of its scope, starts one, or ends it |
| `DriverLog.IdleRunsAreShort` | scripts/personal-memory-parallel.py:1021-1044 | In any stretch of invocations for one scope, no more than the limit in a row are idle |
| `DriverLog.BatchAnswered` | scripts/personal-memory-parallel.py:1012-1044 | The report after an agent settles its invocation and no other: the idle run grows by one exactly when the unit counts before and after agree |
| `DriverLog.BatchCounted` | scripts/personal-memory-parallel.py:1020-1044 | The report after an agent decides how its batch counts: when the units of the scope changed both counts start over, otherwise the count of API errors or that of stalls grows by one, as the agent exited |
| `ShardDriver.AllOrPrefix` | scripts/personal-memory-parallel.py:1049-1068 | The count of finished records equals the number of scopes exactly when all scopes are complete |
| `ShardDriver.Shard.Remember` | scripts/personal-memory-parallel.py:942-945 | The record is in memory and in the file; a kill while writing, and only that, leaves the file unreadable |
| `ShardDriver.Shard.RunBatch` | scripts/personal-memory-parallel.py:982-1044 | One agent, logged whatever becomes of it, within both limits; its batch is idle exactly when the last report before it and the first one after it show equally many units for its scope; the scope is on record with what the report shows |
| `ShardDriver.Shard.DriveScope` | scripts/personal-memory-parallel.py:961-1044 | A scope is finished only after a report on the log showed the state bound to it and complete, and is on record with the messages and units of that report; it is given up only when by the log at least as many stalls as allowed, and one, or more API errors than retries came in a row since its last advance, and is on record for that reason; the budget is spent only when by the log it is; it raises or is killed only when the last request failed or killed it, or a write did; when the first report already shows it complete, no agent is invoked |
| `ShardDriver.Shard.Run` | scripts/personal-memory-parallel.py:917-1046 | By the log of everything asked of the outside: completed positions form a prefix whatever happens, agents never exceed the batch budget, never more than retries plus stalls in a row for one scope leave its unit count unchanged, all requests are for this shard and its scopes, the result counts agents, scopes and completed scopes and says complete exactly when all are; a finished run that is not complete spent the budget by the log or gave up the first incomplete scope for the reason the log shows; when every report shows every scope complete no agent is on the log |
| `ShardDriver.LimitsMean` | scripts/personal-memory-parallel.py:961-1044 | What the limits come to: no more agents than batches, and no stretch of idle agents for one scope longer than retries and stalls together, negative numbers counting as none and the stalls as at least one |
| `ShardDriver.RunShard` | scripts/personal-memory-parallel.py:1420-1562 | One run from the progress file: the file stays a prefix, every completed scope was shown complete by a report about this shard on the log, in this run or before, the agents stay within the limits, a complete result means every scope is on record, and an incomplete one that the budget was spent or the first incomplete scope given up by the log |
| `ShardDriver.Resume` | scripts/personal-memory-parallel.py:917-1046 | The same over any number of resumes with kills anywhere: completed scopes stay a prefix, each was shown complete by a report on the log, and with distinguishable scopes each was itself bound and complete |
| `Tick.Project.WriteTickState` | scripts/personal-memory-parallel.py:1587-1596 | The state is the old one or the new one, whenever the process is killed; without a kill it is the new one |
| `Tick.Project.RunOne` | scripts/personal-memory-parallel.py:1420-1562 | One shard of a run: only its progress changes, it stays in order and witnessed by the log; completion means all its scopes are on record, and without a failed request or an unreadable file the lack of it that some are not |
| `Tick.Project.RunShards` | scripts/personal-memory-parallel.py:1696-1709 | A pass over the shards keeps all plans and invokes at most the batch limit of agents per shard; all results complete means the run is done, every scope on record and shown complete by a report on the log, and unless something failed an incomplete result means that its shard is not |
| `Tick.Project.Finish` | scripts/personal-memory-parallel.py:1718-1729 | The checkpoint moves only when every shard completed, and then to the end of the window |
| `Tick.Project.Drive` | scripts/personal-memory-parallel.py:1688-1728 | Working on the pending run either leaves the state or, with the run done, moves the checkpoint to its end; windows and plans stay; unless something failed, the run is left incomplete only when it is not done |
| `Tick.Project.Tick` | scripts/personal-memory-parallel.py:1610-1728 | Killed at any point, the checkpoint stays safe. A run that a tick adds is planned from the very rows, options and calendar of its request, from the checkpoint, or from 0 without one, to the requested end, or else the present; a pending run is resumed with its own window and plan or refused, never replaced; the checkpoint moves only to the end of the run worked on, when it is done; nothing new is reported only when of the rows of the request nothing survives within that window; incomplete only while the run is pending and, unless something failed, not done; killed only when a request or a write killed it |
| `Tick.Ticks` | scripts/personal-memory-parallel.py:1610-1728 | The same over any sequence of ticks, each killed anywhere, with one log of all that was asked and answered; and every run was planned from the rows, options and calendar of one of the requests |
| `Tick.Project.Begin` | scripts/personal-memory-parallel.py:1638-1690 | A new run starts where the last one ended, with a plan made for that window from the rows of the request, and becomes pending, or the checkpoint is as before; nothing new means that nothing of these rows survives within it |
| `Checkpoint.RunRecognition` | scripts/personal-memory-parallel.py:482-512 | The shards of a run tell their scopes apart exactly when no two tasks of a shard collide |
| `Checkpoint.DoneIsRead` | scripts/personal-memory-parallel.py:1696-1709 | In a finished run every scope is on record after a report about its own shard that showed it complete, and with distinguishable scopes that scope itself was bound and complete |
| `Checkpoint.DoneReadsKept` | scripts/personal-memory-parallel.py:482-512 | In a finished run every instant of a kept conversation-month within the window is read by exactly one scope, and that scope was read in this sense |
| `Checkpoint.CheckpointMeans` | scripts/personal-memory-parallel.py:1718-1729 | End to end: each instant up to the checkpoint lies in the window of a run planned for it, and each conversation that plan keeps in the month of that instant was read there by exactly one scope, on record complete after a report that showed it, itself bound when scopes can be told apart |
| `Checkpoint.CoverageStays` | scripts/personal-memory-parallel.py:1638-1728 | Coverage depends on finished runs alone, so new and unfinished runs cannot take it away |
| `Checkpoint.StartingIsReached` | scripts/personal-memory-parallel.py:1653-1682 | Starting a run takes no coverage away, before and after it is recorded as pending |
| `Tick.Project.AddRun` | scripts/personal-memory-parallel.py:1653-1682 | A new run directory, planned for its window, leaves the checkpoint safe, before and after the run is recorded as pending |
| `Checkpoint.DrivingIsSafe` | scripts/personal-memory-parallel.py:1696-1709 | Progress of the pending run and a longer log keep the checkpoint safe |
| `Checkpoint.CheckpointIsReached` | scripts/personal-memory-parallel.py:1718-1726 | Moving the checkpoint to the end of a finished run that began at the old one skips nothing |
| `LineScanner.RecordsAreConsecutive` | Sources/GreenBubblesHistory/HistoryBundleLoader.swift:932-950 | The records of a terminated file are its consecutive lines, separated by LF or CR LF: the CR before an LF is never part of a record |
| `LineScanner.ConsecutiveIsUnique` | Sources/GreenBubblesHistory/HistoryBundleLoader.swift:932-950 | And nothing else is: a file has only one sequence of consecutive lines |
| `LineScanner.RecordsSliceTheFile` | Sources/GreenBubblesHistory/HistoryBundleLoader.swift:940-948 | The reported offset and length of every record slice the file to exactly the visited bytes |
| `LineScanner.ScanNDJSON` | Sources/GreenBubblesHistory/HistoryBundleLoader.swift:882-981 | Accepts exactly the files that meet the counts and the digest, end in a newline, whose unfinished lines fit the buffer after each read and whose records the visitor accepts; then it visited exactly the consecutive lines of the file in order, without LF and CR LF |
| `LineScanner.ReadChunk` | Sources/GreenBubblesHistory/HistoryBundleLoader.swift:927-960 | One turn of the loop keeps the buffer, the cursor and the visited records in step with the file, compacted or not, and leaves fewer than four chunks of visited bytes and one line of unvisited ones in the buffer |
| `LineScanner.VisitLines` | Sources/GreenBubblesHistory/HistoryBundleLoader.swift:932-950 | The inner loop visits exactly the complete lines of the buffer |
| `LineScanner.TakeLine` | Sources/GreenBubblesHistory/HistoryBundleLoader.swift:935-948 | The record taken from the buffer is the record of the file at that place, CR stripped, refused when empty or too long |
| `LineScanner.ChunkIndependence` | Sources/GreenBubblesHistory/HistoryBundleLoader.swift:952-959 | Buffering is independent of how reads split the file if and only if every raw line, CR included, fits the limit |
| `LineScanner.AcceptedHoweverRead` | Sources/GreenBubblesHistory/HistoryBundleLoader.swift:882-981 | A file is accepted however it is read exactly when it meets the counts and its raw lines fit |
| `LineScanner.CarriageReturnCounts` | Sources/GreenBubblesHistory/HistoryBundleLoader.swift:935-959 | One file with one set of counts and one digest: a line of exactly the limit ended by CR LF is accepted read in whole chunks and refused read byte by byte |
| `SourceFile.ReadRetained` | Sources/GreenBubblesHistory/HistoryBundleLoader.swift:894-991 | A file read from end to end is retained only when it looks the same before and after, and then what was read is what it held; it fails only if the name did not keep leading to one readable file |
| `SourceFile.Validate` | Sources/GreenBubblesHistory/HistoryBundleLoader.swift:894-991 | The descriptor that the name was opened to is retained only with the content that was scanned and accepted, whatever was written during the scan; a content is refused only when it is not acceptable as it was read |
| `SourceFile.ReadChunks` | Sources/GreenBubblesHistory/HistoryBundleLoader.swift:920-930 | What the reads deliver is the content of a file that stood still meanwhile |
| `SourceFile.ReadRange` | Sources/GreenBubblesHistory/HistoryStore.swift:266-300 | A successful read returns exactly that range of the validated content, with short reads and whatever was written since; a range is refused exactly when it is empty, too long or outside the file, and a valid one fails only when the file is no longer the one that was validated or cannot be read |
| `SourceFile.RecordsReadBack` | Sources/GreenBubblesHistory/HistoryStore.swift:266-300 | Every record of an accepted file can be read back by its range, and no record range is refused |
| `HistoryTables.QueriesDecideParts` | Sources/GreenBubblesHistory/HistoryBundleLoader.swift:775-803 | The first four queries find no row if and only if every artifact claims exactly the conversations it is referenced from, at least one, and every reference meets an artifact; the fifth if and only if every resolved relationship leads into its own conversation |
| `HistoryTables.QueryDecidesRelationships` | Sources/GreenBubblesHistory/HistoryBundleLoader.swift:793-796 | The fifth query finds no row if and only if the relationship part holds |
| `HistoryTables.ReferenceMeetsArtifact` | Sources/GreenBubblesHistory/HistoryBundleLoader.swift:775-803 | In a closed graph a reference leads to an artifact that claims the message's conversation |
| `HistoryDatabase.TablesOfShow` | Sources/GreenBubblesHistory/HistoryBundleLoader.swift:562-664 | The inserted rows show exactly the records: messages and artifacts in order, and one row per reference, targeted relationship and claim |
| `HistoryDatabase.Database.InsertMessage` | Sources/GreenBubblesHistory/HistoryBundleLoader.swift:573-605 | Inserts all rows of a message, or nothing if its canonical identity is taken |
| `HistoryDatabase.Database.InsertArtifact` | Sources/GreenBubblesHistory/HistoryBundleLoader.swift:643-659 | Inserts an artifact and its claims exactly when its identity is new and no claim is repeated |
| `HistoryDatabase.Database.VerifyReferences` | Sources/GreenBubblesHistory/HistoryBundleLoader.swift:775-803 | Of tables that show valid records, passes if and only if the reference graph is closed, and blames a relationship if and only if the artifacts are closed and the relationships are not |
| `HistoryRecords.VisitingMeans` | Sources/GreenBubblesHistory/HistoryBundleLoader.swift:338-390 | The visitor accepts a file exactly when every record decodes and is valid and, while inserting, keys are unique |
| `HistoryLoader.BuildIndex` | Sources/GreenBubblesHistory/HistoryBundleLoader.swift:509-709 | Succeeds exactly when both files verify and the reference graph is closed, and then holds the rows of exactly these files |
| `HistoryLoader.VerifyWithoutReindexing` | Sources/GreenBubblesHistory/HistoryBundleLoader.swift:438-507 | Succeeds exactly when both files verify without the inserts |
| `HistoryLoader.CheckReferences` | Sources/GreenBubblesHistory/HistoryBundleLoader.swift:775-803 | On the tables of two valid files the queries pass if and only if the graph of the files is closed |
| `HistoryLoader.ReuseAcceptsTheSame` | Sources/GreenBubblesHistory/HistoryBundleLoader.swift:829-861 | With collision-free digests and matching metadata, checking the files for a reused index accepts exactly what a rebuild accepts, and the contents are those the index was built from |
| `HistoryLoader.LoadConversations` | Sources/GreenBubblesHistory/HistoryBundleLoader.swift:80-114 | Succeeds exactly when the file verifies with its count, and yields the conversations and the union of their participants |
| `HistoryLoader.LoadContacts` | Sources/GreenBubblesHistory/HistoryBundleLoader.swift:116-147 | Succeeds exactly when the file verifies and the contacts are exactly the participants |
| `HistoryLoader.IndexDirectory.Reusable` | Sources/GreenBubblesHistory/HistoryBundleLoader.swift:829-861 | A stored index is reused if and only if it can be read and carries the current format and every identity, digest and count of this manifest |
| `HistoryLoader.IndexDirectory.Load` | Sources/GreenBubblesHistory/HistoryBundleLoader.swift:43-196 | The index directory never shows: unless stopped, a bundle is accepted for what it is, reused or rebuilt, and its index is the one a rebuild makes; the answer says whether it was reused |
| `HistoryAcceptance.LoadableMeans` | Sources/GreenBubblesHistory/HistoryBundleLoader.swift:43-436 | Which bundles are accepted, told from their records alone: the four files are the ones the manifest describes, line by line they hold conversations, contacts, messages and artifacts, each right by itself and known to the others, identities are unique, contacts are exactly those who take part, references and relationships are closed, and the counts agree |
| `HistoryAcceptance.ReferencesAreRight` | Sources/GreenBubblesHistory/HistoryBundleLoader.swift:337-378 | The references of a message are accepted exactly if each has an identity and a role, no identity comes twice in one role, and exactly one is preferred unless there are none |
| `HistoryLoader.AcceptedIsClosed` | Sources/GreenBubblesHistory/HistoryBundleLoader.swift:93-196 | In an accepted bundle the contacts are the participants, every message is in a known conversation with a known sender, its references meet artifacts of its conversation, and its relationships lead into its conversation |
| `HistoryLoader.IndexAgrees` | Sources/GreenBubblesHistory/HistoryBundleLoader.swift:509-709 | Row by row and in order, the index describes exactly the messages and artifacts of the files, and each byte range decodes to its record |
| `HistoryLoader.RangeDecodes` | Sources/GreenBubblesHistory/HistoryStore.swift:187-194 | The byte range of a record decodes to the value that was validated |
| `HistoryStore.SelectMeans` | Sources/GreenBubblesHistory/HistoryStore.swift:26-52 | A selection is sorted strictly newest first and holds exactly the matching rows |
| `HistoryStore.OlderIsRest` | Sources/GreenBubblesHistory/HistoryStore.swift:26-39 | The rows older than a cursor are exactly those behind it in the conversation |
| `HistoryStore.Messages` | Sources/GreenBubblesHistory/HistoryStore.swift:19-61 | A page holds at most as many rows as were asked for, but one to 250, each a row of the conversation that comes after the cursor, by strictly descending ordinal and row; rows left over come after all of these, and exactly then there is a cursor, at the last row shown |
| `HistoryStore.FollowPages` | Sources/GreenBubblesHistory/HistoryStore.swift:19-61 | Following the cursors with any limits visits every message of the conversation exactly once, newest first, and ends |
| `HistoryStore.MessagesAround` | Sources/GreenBubblesHistory/HistoryStore.swift:126-154 | Returns the first rows of the answer, as many on either side as were asked for, but one to 100, and one more, each once, sorted newest first, and nothing for an unknown message; with distinct ordinals they are a stretch of the conversation that holds the target |
| `HistoryStore.AroundIsSlice` | Sources/GreenBubblesHistory/HistoryStore.swift:126-154 | With distinct ordinals, the closest rows of any answer, sorted, are a contiguous slice of the conversation and the target is among them |
| `HistoryStore.ChosenHaveNoGap` | Sources/GreenBubblesHistory/HistoryStore.swift:141-146 | However ties fall, a message strictly between two chosen ones is chosen as well |
| `HistoryStore.TargetIsChosen` | Sources/GreenBubblesHistory/HistoryStore.swift:141-149 | The target is among the chosen, however ties fall, if and only if no more messages than are chosen share its ordinal |
| `HistoryStore.TargetCanBeMissing` | Sources/GreenBubblesHistory/HistoryStore.swift:141-149 | It can be missing: four messages of one ordinal, the smallest radius, and an answer of the query without the opened message |
| `HistoryStore.DecodeMessages` | Sources/GreenBubblesHistory/HistoryStore.swift:171-194 | The decoded messages are what the ranges of the validated content decode to, whatever was written since; while the file stays unspoilt, it fails only on a row whose range cannot be read or decoded |
| `HistoryStore.ShownAsValidated` | Sources/GreenBubblesHistory/HistoryStore.swift:187-194 | A row read back is the message that was validated for that row |
| `HistoryStore.ConversationIsShown` | Sources/GreenBubblesHistory/HistoryStore.swift:19-61 | Read through the index of a file, a conversation is that file's messages of the conversation, each once, by descending ordinal and then position |
| `OpenedStore.ReadBundle` | Sources/GreenBubblesHistory/HistoryBundleLoader.swift:882-991 | All four files of the bundle are read whole by their names, and the contents handed on are what these files held; it fails only if a name did not keep leading to one readable file |
| `OpenedStore.OpenStore` | Sources/GreenBubblesHistory/HistoryBundleLoader.swift:43-196 | An opened store holds the index of a bundle that is acceptable, that its four files held, and whose messages and artifacts stay readable through the retained descriptors |
| `OpenedStore.ShowConversation` | Sources/GreenBubblesHistory/HistoryStore.swift:171-194 | From end to end: opened by name, loaded or reused, followed page by page and read back, the values shown are exactly the messages of the conversation in an accepted bundle that these files held, newest first, whatever was written meanwhile; while nothing happens to the files and nothing stops it, it fails only if what they hold is not acceptable |
| `OpenedStore.ShowArtifact` | Sources/GreenBubblesHistory/HistoryStore.swift:156-169 | The same for an artifact looked up by identity: the artifact of the accepted file with that identity, and nothing only when the file has none; failing only for the same reasons |
| `LikeSearch.ThreePassesAreOne` | Sources/GreenBubblesHistory/HistoryStore.swift:319-324 | The three replacements in sequence escape every character once |
| `LikeSearch.EscapedOne` | Sources/GreenBubblesHistory/HistoryStore.swift:319-324 | A backslash goes in front of a backslash, a percent sign or an underscore, and of nothing else |
| `LikeSearch.EscapedMatchesPrefix` | Sources/GreenBubblesHistory/HistoryStore.swift:319-324 | An escaped query followed by a percent sign matches exactly the texts that start with the query |
| `LikeSearch.PatternFindsQuery` | Sources/GreenBubblesHistory/HistoryStore.swift:90-110 | The pattern matches a text if and only if the text contains the query, letters of ASCII compared without case and all other characters as they are, for every query |
| `LikeSearch.FoundMeans` | Sources/GreenBubblesHistory/HistoryStore.swift:90-110 | The condition of a short query holds of exactly the rows that contain it in one of the three columns; a missing text never matches |
| `LikeSearch.SearchShort` | Sources/GreenBubblesHistory/HistoryStore.swift:64-111 | What a short query shows contains it, is of the conversation asked for, each once, newest first, at most as many as asked for, but one to 250; what contains it and is not shown is no newer than anything shown, and only when the limit is used up; an empty query shows nothing |
| `Utf8.AcceptedIsEncoding` | Sources/GreenBubblesHistory/HistoryDirectQueryClient.swift:738-785 | What the validator accepts at a place is the encoding of one Unicode scalar value, per sections 3 and 4 of RFC 3629 |
| `Utf8.EncodeMeans` | Sources/GreenBubblesHistory/HistoryDirectQueryClient.swift:738-785 | Which values take one, two, three and four octets, and the value the octets carry: the table of section 3 of RFC 3629 |
| `Utf8.RuledOut` | Sources/GreenBubblesHistory/HistoryDirectQueryClient.swift:738-785 | The examples of section 7 of RFC 3629, and overlong, surrogate, too large and stray octets, ruled out whatever follows them |
| `Utf8.EncodingIsAccepted` | Sources/GreenBubblesHistory/HistoryDirectQueryClient.swift:738-785 | Every encoding of a scalar value is accepted at its own length |
| `Utf8.EncodingStep` | Sources/GreenBubblesHistory/HistoryDirectQueryClient.swift:738-785 | Stepping over an accepted encoding neither makes nor breaks a text |
| `Utf8.EncodingIsInjective` | Sources/GreenBubblesHistory/HistoryDirectQueryClient.swift:738-785 | No byte string encodes two different texts |
| `Utf8.IsValidUTF8` | Sources/GreenBubblesHistory/HistoryDirectQueryClient.swift:738-785 | True if and only if the bytes encode some sequence of scalar values |
| `BrowserRequests.JoinedIsDistinct` | Sources/GreenBubblesHistoryApp/HistoryBrowserModel.swift:986-990 | Joined pages hold no identity twice as long as no single page does |
| `BrowserRequests.MergeMeans` | Sources/GreenBubblesHistoryApp/HistoryBrowserModel.swift:984-988 | Merged are the items there were and, behind them in their order, exactly those items of the page whose identity is new |
| `BrowserRequests.ChainGrows` | Sources/GreenBubblesHistoryApp/HistoryBrowserModel.swift:971-997 | A page asked for with the last cursor continues the chain |
| `BrowserRequests.MessagesDoneKeeps` | Sources/GreenBubblesHistoryApp/HistoryBrowserModel.swift:971-1004 | Completing a message request keeps the model consistent |
| `BrowserRequests.StepKeeps` | Sources/GreenBubblesHistoryApp/HistoryBrowserModel.swift:393-1053 | Every user action and every completion keeps the model consistent |
| `BrowserRequests.StaleNeverShows` | Sources/GreenBubblesHistoryApp/HistoryBrowserModel.swift:393-1053 | For every interleaving, what is shown is the joined, cursor-chained pages of the selected conversation under the current configuration, or the one hit that was asked for under that configuration, in that conversation, with the highlighted identity |
| `BrowserRequests.StaleIsIgnored` | Sources/GreenBubblesHistoryApp/HistoryBrowserModel.swift:982-985 | An answer whose identity is not active changes nothing that is shown |
| `BrowserRequests.OlderPageContinues` | Sources/GreenBubblesHistoryApp/HistoryBrowserModel.swift:971-997 | An append completion that passes its guards finds the cursor it was issued with |
| `BrowserRequests.CursorCheckIsImplied` | Sources/GreenBubblesHistoryApp/HistoryBrowserModel.swift:414-417 | The cursor check of the conversations path cannot fail once the identity is active |
| `BrowserRequests.LoadingEnds` | Sources/GreenBubblesHistoryApp/HistoryBrowserModel.swift:996-1004 | The loading flag always belongs to a request in flight, and any answer to it ends the loading |
| `BrowserRequests.ShownAreDistinct` | Sources/GreenBubblesHistoryApp/HistoryBrowserModel.swift:986-990 | No message is shown twice as long as no single page holds one twice |
| `BrowserRequests.Browse` | Sources/GreenBubblesHistoryApp/HistoryBrowserModel.swift:297-456 | A session of the model object shows what the run of its events shows |
| `BrowserRequests.BrowserModel.Apply` | Sources/GreenBubblesHistoryApp/HistoryBrowserModel.swift:297-1053 | Every event, handled by its method, is the step of the event machine and keeps the object consistent |
| `BrowserRequests.BrowserModel.ConnectDirectSource` | Sources/GreenBubblesHistoryApp/HistoryBrowserModel.swift:297-391 | Clears everything, makes every request in flight one that cannot show, and unless the credential failed sends one status request |
| `BrowserRequests.BrowserModel.LoadMoreDirectConversations` | Sources/GreenBubblesHistoryApp/HistoryBrowserModel.swift:393-412 | Keeps what is shown, and asks for what follows it under a new identity only with a cursor and when none are loading |
| `BrowserRequests.BrowserModel.SelectDirectConversation` | Sources/GreenBubblesHistoryApp/HistoryBrowserModel.swift:438-442 | Nothing of another conversation stays, and of what is in flight only the new request, which has no cursor, can show |
| `BrowserRequests.BrowserModel.LoadOlderDirectMessages` | Sources/GreenBubblesHistoryApp/HistoryBrowserModel.swift:444-451 | Keeps what is shown, and asks for what precedes it under a new identity only with a cursor, not while loading, and never next to a hit |
| `BrowserRequests.BrowserModel.ReturnToLatestDirectMessages` | Sources/GreenBubblesHistoryApp/HistoryBrowserModel.swift:453-456 | Empties the messages and starts the selected conversation over under a new identity |
| `BrowserRequests.BrowserModel.LoadDirectMessages` | Sources/GreenBubblesHistoryApp/HistoryBrowserModel.swift:951-970 | The new identity is active and its request in flight; unless appending the messages are empty, and selection and conversations stay |
| `BrowserRequests.BrowserModel.OpenDirectSearchResult` | Sources/GreenBubblesHistoryApp/HistoryBrowserModel.swift:552-567 | Selects the conversation of the hit, shows nothing until it arrives, and of what is in flight only that request can show |
| `BrowserRequests.BrowserModel.CompleteStatus` | Sources/GreenBubblesHistoryApp/HistoryBrowserModel.swift:374-389 | Only the active connection shows its conversations, exactly those of the page; another changes nothing; a failure of the active one clears everything |
| `BrowserRequests.BrowserModel.CompleteConversations` | Sources/GreenBubblesHistoryApp/HistoryBrowserModel.swift:414-435 | Only the active request extends the conversations, by the items of its page whose identity is new, in their order, and ends the loading; another changes nothing |
| `BrowserRequests.BrowserModel.CompleteMessages` | Sources/GreenBubblesHistoryApp/HistoryBrowserModel.swift:982-1004 | Only the active request shows: its page is all of the messages or, appending, its items with a new identity go behind them in their order, and the loading ends; another changes nothing |
| `BrowserRequests.BrowserModel.CompleteHit` | Sources/GreenBubblesHistoryApp/HistoryBrowserModel.swift:578-594 | Only the hit opened last shows, alone, and the loading ends; another changes nothing |
| `BrowserRequests.BrowserModel.ClearDirectState` | Sources/GreenBubblesHistoryApp/HistoryBrowserModel.swift:1014-1053 | Forgets everything, and makes every request in flight one that cannot show |
| `AcquisitionSurface.TailAndPiece` | Sources/GreenBubblesCore/WeChatAcquisitionSurfaceInspector.swift:289-302 | The kept tail and the next piece together show exactly the occurrences that end in the piece |
| `AcquisitionSurface.OccursMeans` | Sources/GreenBubblesCore/WeChatAcquisitionSurfaceInspector.swift:296-299 | A pattern occurs exactly if it is not empty and some stretch of the text is the pattern |
| `AcquisitionSurface.NextTail` | Sources/GreenBubblesCore/WeChatAcquisitionSurfaceInspector.swift:300-302 | The tail is always the last bytes of everything read, one fewer than the longest pattern |
| `AcquisitionSurface.SearchPiece` | Sources/GreenBubblesCore/WeChatAcquisitionSurfaceInspector.swift:296-299 | After a piece the matches are exact for everything read |
| `AcquisitionSurface.ScanResource` | Sources/GreenBubblesCore/WeChatAcquisitionSurfaceInspector.swift:260-313 | For every way reads split the file and whatever is written meanwhile, a finished scan reports size, digest and, pattern by pattern, exactly the occurrences of one content of the file that the name was opened to; a resource above 512 MiB is refused, and while nothing happens to the file nothing else is |
| `AcquisitionSurface.SliceIsFeature` | Sources/GreenBubblesCore/WeChatAcquisitionSurfaceInspector.swift:217-224 | The slice of matches at a feature's place is about its own markers |
| `AcquisitionSurface.Inspect` | Sources/GreenBubblesCore/WeChatAcquisitionSurfaceInspector.swift:217-236 | A feature is observed if and only if all of its own markers occur, and its count is the number of those that do |
| `Canonical.DecimalIsInjective` | Sources/GreenBubblesSendKit/CanonicalEncoding.swift:33-36 | Decimal rendering is injective |
| `Canonical.DecimalMeans` | Sources/GreenBubblesSendKit/CanonicalEncoding.swift:33-36 | The decimal digits denote the number, without zeros in front |
| `Canonical.SignedIsInjective` | Sources/GreenBubblesCore/SnapshotAcquisitionPlanner.swift:336-341 | Decimal rendering with a sign is injective |
| `Canonical.SplitRecovers` | Sources/GreenBubblesSendKit/CanonicalEncoding.swift:12-43 | Splitting at NUL recovers the fields |
| `Canonical.EncodingIsInjective` | Sources/GreenBubblesSendKit/CanonicalEncoding.swift:12-43 | Equal encodings come from equal fields |
| `Canonical.CanonicalWriter.Text` | Sources/GreenBubblesSendKit/CanonicalEncoding.swift:21-29 | The field is added, and one with NUL spoils the encoding for good |
| `Canonical.CanonicalWriter.Number` | Sources/GreenBubblesSendKit/CanonicalEncoding.swift:31-34 | The decimal digits are added as a field |
| `Canonical.CanonicalWriter.Flag` | Sources/GreenBubblesSendKit/CanonicalEncoding.swift:36-38 | A flag is the field true or false |
| `Canonical.CanonicalWriter.Finish` | Sources/GreenBubblesSendKit/CanonicalEncoding.swift:40-42 | Nothing exactly when some field held NUL; otherwise the joined fields, which splitting recovers |
| `Canonical.NormalizedMatches` | Sources/GreenBubblesSendKit/CanonicalEncoding.swift:59-78 | Two texts match exactly when they have the same words, and normalizing twice changes nothing |

## Left out

- Hashing, encryption and key handling: a hash is a parameter, and is assumed
  injective only where a theorem says so (`Injective`).
- JSON decoding and the checks of a record that involve no other record
  (formats, labels, directions, freshness): parameters `Codec` and `Rules`.
- SQLite internals, full-text search and its rank order, pragmas, transactions:
  a table is a sequence of rows, a query filters, sorts and takes. Whether a stored
  index can be read, and whether loading is stopped before it is published, are
  parameters.
- HistoryDatabase.Database.InsertMessage: rows are inserted after the scan of their file and not
  inside its visitor; the order and the uniqueness tests are the same.
- LineScanner.ScanNDJSON: task cancellation and progress reports are left out,
  and the visitor is a function of the records before and the record at hand.
- Which error is reported first: contracts say whether an operation succeeds.
- POSIX modes, owners, link counts, symbolic links, hooks, directory removal,
  the manifest file and its ordering of entries by path.
- `Honest` excludes writers that restore an old modification time, or change a
  mapped file without one.
- Calendar and time-zone arithmetic: months are ordered numbers whose first
  and last seconds are given; timestamps are numbers compared as such.
- The sidecar's line parsing, labels, cost estimates, the order of scopes with the
  same first month, and that of tasks of equal size.
- Agents, `memory status`, git, locks, prompts, waiting times and the moment a
  process is killed: `Outside` answers each request in any way, and its log of
  requests and answers and its count of writes are not in the original. That a report is truthful about the
  memory it reports on is not modelled.
- Shards are driven one after the other where the original uses a thread pool;
  they share no state.
- Sums of messages and units in shard results, language and statistics in the
  tick state.
- BrowserRequests: sections, warnings, errors, consistency notes, and searching
  itself, whose completions use the same guards. The history fields `chain` and
  `hit` are not in the original.
- Unicode: identifiers are compared character by character, without canonical
  equivalence; texts stored in SQLite hold no NUL.
- LikeSearch.ThreePassesAreOne: replaces character by character, while Foundation's
  `replacingOccurrences` compares composed characters unless told otherwise, so a
  percent sign or an underscore followed by a combining mark may stay unescaped.
- OpenedStore.OpenStore: the four files are read before any of them is scanned,
  while the original scans each as it reads it; which error comes first may differ.
- LikeSearch.SearchShort: the query arrives trimmed, and queries of three and more
  characters go to the full-text index.
- Bundle browsing in the app, views, live media, sending, screen capture, the
  process client around direct queries, and the Rust core.
