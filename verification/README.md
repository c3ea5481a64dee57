# Quaid: a verified model

Quaid keeps a personal knowledge base as markdown files in a vault and as rows in a SQLite
database. This project models the parts of it where a mistake would lose or corrupt data, and
proves what they keep.

| file | what it models |
|---|---|
| `VaultMachine.dfy`, `VaultSafety.dfy`, `VaultVersions.dfy`, `VaultOrder.dfy`, `VaultRegistry.dfy`, `VaultConflicts.dfy`, `VaultScenarios.dfy`, `VaultFaults.dfy` | the write-through protocol that keeps a page row and its vault file in agreement, as a labelled step machine: any number of writers in any number of processes, outsiders who swap the file, kills and power loss between any two system calls, and a recovery that runs beside the puts step by step |
| `PutProtocol.dfy` | the same put as the program text runs it, with every failure branch, refining the machine |
| `Utf8.dfy`, `Text.dfy` | UTF-8 (section 3 of RFC 3629) and the string operations the chunker and the ignore-file editor use |
| `ChunkRanges.dfy`, `ChunkAtoms.dfy`, `AtomShapes.dfy`, `ChunkWindows.dfy`, `TextSpan.dfy`, `PageChunks.dfy`, `PageHeadings.dfy` | the chunker: paragraphs, lines, hard splits, overlapping windows, truth sections, timeline entries |
| `EmbeddingIndex.dfy`, `EmbedPass.dfy` | the embedding index, its paginated refresh, the purge of a collection, the validator's queries |
| `Ingest.dfy`, `IngestRuns.dfy`, `IngestHistory.dfy` | ingesting files: page versions, raw-import rotation and pruning, duplicates |
| `GraphTree.dfy`, `FocusedGraph.dfy` | the text tree of a page's neighbourhood, and the playground's bounded breadth-first search |
| `Pipe.dfy`, `Sse.dfy`, `SseFields.dfy`, `SseCuts.dfy`, `SseReads.dfy`, `McpClient.dfy` | the bounded JSONL reader and loop, the event-stream reader, the request table of the MCP client |
| `Budget.dfy`, `IgnoreFile.dfy` | the result budgeter, the ignore-file editor |

Loops and objects that change state are methods and classes with the same control flow; each is
proved equal to a function, or to a step of the machine, about which the properties are proved.

## What the proofs found

- **Crash safety needs five measures the code does not take.** `PowerLossSafeIffAllMeasures` shows that
  each is needed, even with the other four, and that together they suffice:
  - `COMMIT` does not sync the log: the schema sets `PRAGMA synchronous = NORMAL` and says that the last
    few commits can be lost on power loss. The sentinel goes right after the commit, so a lost commit
    leaves a new file, an old row and no sentinel (`CommitCanBeLost`).
  - Directories made for a vault file are not synced into the ones that hold them, so the first put to a
    new folder can return and then lose folder and file (`FolderCanBeLost`).
  - Neither is the recovery directory, so the first sentinel can be lost while it is needed
    (`SentinelCanBeLost`).
  - Recovery reads the vault file without syncing its directory, so a rename it has seen can be taken back
    after the sentinel is gone (`RecoveredFileCanBeLost`).
  - Recovery reads the file before it holds the write lock and applies what it decided to the row it then
    finds, so it can delete the page of a put that committed in between (`PageCanBeDropped`). For the same
    reason it can record the old file's stat and digest beside the new page (`StaleRecovery`);
    `CoherentIffLocked` shows that the lock is what is missing.
- **Two puts with the same expected version can both succeed.** The version check lets any expected
  version pass when the page does not exist, so such a put creates version 1, and a put that expects the
  same version succeeds again once the page has reached it (`SameExpectedBothSucceed`). `SameExpectedIff`
  shows that this is the only way while the page is not deleted. The MCP front end
  (`src/mcp/tools/pages.rs`) refuses an expected version for an absent page, the command line does not.
- **Bytes seen before can be ingested again** once pruning has dropped them
  (`PagesUnchangedIff`, `PruningForgets`); with pruning off they never are (`KeepAllNeverRepeats`).
- **The validator's orphan query ignores the model**, so it misses exactly the orphaned vectors whose
  rowid a row of another model has (`OrphanCountedIff`, `OrphanCountExactIff`,
  `OrphanQueryIsModelBlind`); together with the stale-model query the checks are exact
  (`ValidatorIsExact`).
- **The embed pass reads pages by key without a namespace**, so a page can be embedded from another
  namespace's content (`OwnContentIff`, `NamespacesShareContent`). A page whose content has no
  chunks keeps its old rows (`RunBulk`).
- **The token cap does not hold for every chunk**: `CapFailsIff` gives the texts that are pushed
  whole by their byte offsets, `PageCapFailsIff` the pages with such a section or timeline entry, and
  `BlankTailExceedsCap` a family of them.
- **Removing an ignore pattern can lose a blank line** when the file has no final newline
  (`RemoveKeepsLinesIff`, `RemoveLosesBlankLine`).
- **A read that ends between a carriage return and its line feed can hide an event**
  (`ReceivedIffPairsKept`, `CutPairHidesBlock`), but only if the pair ends an empty line
  (`OtherCutsAreHarmless`); `ReadEndMattersIff` says of each read end exactly when an event changes.

## Model

| member | source | states |
|---|---|---|
| VaultSafety.StepKeepsInv | src/commands/put.rs:872-1117 | Every step of every writer, and every kill, outsider, write-back, power loss and step of recovery, keeps the invariant: lock owner, certain sentinels, what the target's history may hold, and agreement or a guarding sentinel; provided it needs none of the five measures or comes with the one it needs. |
| VaultSafety.StepKeepsBase | src/commands/put.rs:872-1117 | All of it but the last part is kept by every step without exception: lost commits, lost directories and stale recoveries included. |
| VaultSafety.CrashSafety | src/commands/put.rs:872-1117 | At every state of every interleaved run of such steps, each file power loss may leave, or the lack of one, agrees by its digest with the committed row, or was made by an outsider, or a sentinel survives in a directory that survives. |
| VaultSafety.RecoveryHeals | src/core/vault_sync/mod.rs:1272-1322 | From every reachable state with synced directories, lost commits included, a recovery that has read the file under the lock with its directory synced, or finds all as it has read it, makes row and file agree, and makes all further runs of such steps crash safe again, with puts of other processes under way. |
| VaultSafety.LateFailureKeepsSentinel | src/commands/put.rs:1268-1294 | In every run in which power loss does not take the recovery directory, other crashes included, the sentinel of a put that failed after its rename is there unless a recovery ended after the put began. |
| VaultSafety.SyncedRunsKeepCommits | src/schema.sql:5-10 | If commits sync the log, no run can lose one. |
| VaultScenarios.FaultFreePutSucceeds | src/commands/put.rs:836-1117 | From every state in which the lock is free and the checks pass, the twenty calls of the text are a run that stores the bytes as the next version in row and file and leaves no trace. |
| VaultFaults.GoesOnIff | src/commands/put.rs:836-1117 | At every call of the text a put goes on exactly if the call works and refuses nothing: no missing or stale version, no file that differs from the row by stat and digest, a row at the version read, no symlink, a free dedup key, and size, inode and digest of its own file; a target that cannot be statted and a sentinel that cannot be unlinked stop nothing. |
| VaultFaults.ErrIffSomeCallFails | src/commands/put.rs:836-1117 | In every run in which given calls fail, a put that returned has failed exactly if it made a call that is among them, that others stood in the way of, or that refused what it found. |
| VaultFaults.AlonePutSucceeds | src/commands/put.rs:836-1117 | Every run in which one put alone acts, no call fails and the start is ready for it ends, if the put returns, with success and the bytes stored as the next version. |
| VaultScenarios.PowerLossSafeIffAllMeasures | src/schema.sql:5-10 | All reachable states are safe against everything power loss may bring back or take if and only if commits sync the log, new directories and the recovery directory are synced into the ones that hold them, and recovery syncs the vault directory and reads the file under the write lock. |
| VaultScenarios.CommitCanBeLost | src/schema.sql:5-10 | Without the log sync a put that returned success reaches an unsafe state. |
| VaultScenarios.FolderCanBeLost | src/core/fs_safety.rs:69-147 | Without the sync of new directories, even with the other measures, the first put to a new folder returns success in a state that is not crash safe. |
| VaultScenarios.SentinelCanBeLost | src/commands/put.rs:1152-1212 | Without the sync of the recovery directory, even with the other measures, a put between rename and commit is in a state that is not crash safe, although its sentinel is synced. |
| VaultScenarios.RecoveredFileCanBeLost | src/core/vault_sync/mod.rs:1272-1322 | Without the directory sync, even with the other measures, a recovery reaches a state, all puts finished, that is not crash safe. |
| VaultScenarios.StaleRecovery | src/core/reconciler.rs:535-570 | Without the lock a put can commit between recovery's reading and writing; then the row is gone although its file is there, or it holds the new page with the old file's stat and digest. |
| VaultScenarios.PageCanBeDropped | src/core/reconciler.rs:535-570 | Without the lock, even with the other measures, such a recovery reaches a state that is not crash safe. |
| VaultScenarios.CoherentIffLocked | src/core/reconciler.rs:1681-1713 | The row fits everything committed beside it at all reachable states if and only if recovery reads under the lock, or no two texts have different digests. |
| VaultScenarios.SameExpectedBothSucceed | src/core/vault_sync/mod.rs:450-476 | Two puts with the same expected version that both return success, as a reachable run. |
| VaultVersions.OwnStepKeepsVersions | src/commands/put.rs:593-687 | Every operation of every writer keeps the version chain, the staged-row facts and the lock discipline. |
| VaultVersions.NoLostUpdates | src/commands/put.rs:593-687 | Over every run, lost commits included, the committed changes form a chain in which each update replaced exactly the version it expected and added one. |
| VaultVersions.PutsCountVersions | src/commands/put.rs:593-687 | Among puts alone the committed versions are 1, 2, 3, and so on, and each update expected its predecessor. |
| VaultVersions.SameExpectedIff | src/core/vault_sync/mod.rs:450-476 | Two committed puts without a deletion between them have the same expected version exactly if the first created the page and expected the number of log entries from it to the second, the version the page had by then. |
| VaultVersions.OneWinnerPerVersion | src/commands/put.rs:655-687 | Such creations apart, of several puts with the same expected version at most one is committed while the page is not deleted. |
| VaultVersions.VersionsGrow | src/core/vault_sync/mod.rs:450-476 | While the page is not deleted, versions strictly grow along the log. |
| VaultVersions.StepCarriesVersion | src/commands/put.rs:593-687 | At every reachable state no step but power loss changes the page's content without adding one to its version. |
| VaultVersions.AllOrNothing | src/commands/put.rs:736-769 | In every run: a put that reported an error is not in the log, and after a before-rename error no target image is its own. In every run that loses no commit: a put that reported success is in the log with its version, and what it hashed after the rename had the digest of its bytes. In every run in which recovery records unchanged files with the digest it compared, as it always does under the lock: row, file state, raw import and job speak of the same bytes. |
| VaultConflicts.PreconditionGuardsEdits | src/core/vault_sync/precondition.rs:79-157 | At every reachable state a put passes the file check exactly if neither page nor file exists, or the file is unchanged by its stat or has the recorded digest, which is the page's own if recovery reads under the lock; otherwise the error says whether it is a symlink, deleted, created or changed. Refused or not, the file's directory has been made. |
| VaultConflicts.VersionVerdicts | src/core/vault_sync/mod.rs:450-476 | Over every run, a finished put was refused for a missing or a stale version exactly if the page existed when it was read and none or another version was given; every put past the check expected what it read, or read an absent page. |
| VaultConflicts.CompareAndSwap | src/commands/put.rs:593-687 | Inside the transaction the row is staged exactly if the page is still at the version read, or still absent. |
| VaultConflicts.ConflictsLeaveNoTrace | src/commands/put.rs:836-882 | At every reachable state, crashes included, a put refused for a conflict has left no sentinel, none power loss could bring back, no temporary file, no target entry and no committed change; only directories it may have made. |
| VaultConflicts.CleanupRemovesAll | src/commands/put.rs:1227-1266 | If its calls succeed, the cleanup before the rename leaves neither temporary file nor sentinel nor key, and reports the original error. |
| VaultConflicts.CommittedSawItsFile | src/commands/put.rs:1062-1076 | Every put that committed saw its own temporary file under the target name: inode, size and digest. |
| VaultRegistry.KeyIsFree | src/core/vault_sync/write_lock.rs:38-110 | At every reachable state a put that has not yet inserted its dedup key finds the key free. |
| VaultRegistry.KeysClearOnExit | src/commands/put.rs:1227-1294 | After every exit, failure or kill the process holds no dedup key for the slug, and no put is ever refused as a duplicate. |
| PutProtocol.Vault.Perform | src/commands/put.rs:872-1117 | One system call of a put followed by any interference leads only where the program text says and keeps the request. |
| PutProtocol.Vault.Begin | src/commands/put.rs:308-326 | The put begins: it has its request and the version it read, whatever others do then. |
| PutProtocol.Vault.PutLocked | src/commands/put.rs:308-376 | A whole put under the slug lock, given the ranks of the calls that fail, with interference, a recovery's steps included, between all calls. It fails exactly if one of its calls is among those, was blocked by others, or refused what it found; with no faults and nobody else at work, a put that passes the checks returns success with the next version and has stored its bytes. All-or-nothing outcome, sentinel kept after post-rename errors unless a recovery ended since, dedup key cleared, and exactly the calls and the cleanup due for the outcome. |
| PutProtocol.Vault.PersistWithVaultWrite | src/commands/put.rs:812-882 | From the version check on, every path ends with a reported result, leaves the request as it was, gives the slug lock on, and fails at exactly the calls that are said to fail or are blocked. |
| PutProtocol.Vault.WriteWithSentinel | src/commands/put.rs:884-895 | The same from the staged row on. |
| PutProtocol.Vault.WriteTempFile | src/commands/put.rs:896-912 | The same from the synced sentinel on. |
| PutProtocol.Vault.CheckTarget | src/commands/put.rs:913-927 | The same from the temporary file on. |
| PutProtocol.Vault.ReplaceTarget | src/commands/put.rs:943-993 | The same from the symlink check on. |
| PutProtocol.Vault.SyncRenamed | src/commands/put.rs:1010-1022 | The same from the rename on. |
| PutProtocol.Vault.VerifyAndCommit | src/commands/put.rs:1028-1060 | The same from the directory sync on. |
| PutProtocol.Vault.CompareAndCommit | src/commands/put.rs:1062-1076 | The same from the stat and digest of the target on. |
| PutProtocol.Vault.CommitAndRelease | src/commands/put.rs:1092-1117 | The same from the comparison on: the commit is made unless it is said to fail. |
| PutProtocol.Vault.CleanupPreRename | src/commands/put.rs:1227-1266 | The same after a failure before the rename, reporting the original error. |
| PutProtocol.Vault.HandlePostRenameFailure | src/commands/put.rs:1268-1294 | The same after a failure behind the rename, reporting the original error, with no dedup key of the process left. |
| VaultOrder.DoLeads | src/commands/put.rs:836-1117 | The control flow: a call that works goes on or refuses with an error of its own, a call that fails leads to the error or the cleanup due. |
| VaultOrder.CallsInOrder | src/commands/put.rs:836-1117 | In every run a put has made the first calls of the text, in order and each once, and after a failed one only the cleanup due, in order. |
| VaultOrder.CallsOfReturnedPut | src/commands/put.rs:836-1117 | A put that returned success has made all nineteen calls; one that returned an error those up to the failed one and its whole cleanup, and the error is the one due. |
| Utf8.BoundaryIsOffset | src/core/chunking.rs:294-296 | The one-byte boundary test holds exactly at the offsets of characters and at the end. |
| Utf8.EncodesCodePoint | src/core/chunking.rs:294-296 | The bytes of a character hold its code point, and are as few as can hold it. |
| Utf8.SliceBytes | src/core/chunking.rs:193 | A byte slice between boundaries is the corresponding run of characters. |
| ChunkRanges.ParagraphRanges | src/core/chunking.rs:241-264 | The byte ranges returned are those of the paragraphs of the text. |
| ChunkRanges.ParagraphsOrdered | src/core/chunking.rs:239-264 | Paragraphs are non-empty, in order, disjoint and inside the text. |
| ChunkRanges.ParagraphsCover | src/core/chunking.rs:239-264 | Every character that is not white space is in a paragraph. |
| ChunkRanges.LineRanges | src/core/chunking.rs:268-280 | The byte ranges returned, moved by the base, are those of the non-blank lines. |
| ChunkRanges.LineMarksCover | src/core/chunking.rs:266-280 | Every character of a paragraph that is not white space is in one of its lines. |
| ChunkRanges.BoundaryAfterStart | src/core/chunking.rs:293-296 | The backward boundary search ends strictly after the piece's start. |
| ChunkRanges.BoundaryAtOrBefore | src/core/chunking.rs:293-296 | The search stops at the last character boundary at or before the cut. |
| ChunkRanges.PiecesFacts | src/core/chunking.rs:284-301 | Hard-split pieces are non-empty, tile the span without gaps and fit the limit. |
| ChunkRanges.PiecesAreLongest | src/core/chunking.rs:284-301 | No piece but the last could have taken one more character. |
| ChunkRanges.HardSplit | src/core/chunking.rs:284-301 | The method appends exactly those pieces, as byte ranges. |
| ChunkAtoms.SplitAtoms | src/core/chunking.rs:221-237 | The atoms are whole paragraphs where they fit, else lines, else pieces. |
| ChunkAtoms.AtomsFacts | src/core/chunking.rs:218-237 | Atoms are in order, at most 1760 bytes, and contain every character that is not white space. |
| AtomShapes.SameParagraphIff | src/core/chunking.rs:239-264 | Two characters that are not white space are in one paragraph exactly if no blank line is between them. |
| AtomShapes.ParagraphEdges | src/core/chunking.rs:239-264 | A paragraph goes from the beginning of a line that is not blank to a character that is not white space. |
| AtomShapes.SameLineIff | src/core/chunking.rs:266-280 | Two characters of a paragraph that are not white space are in one of its lines exactly if no line feed is between them. |
| AtomShapes.LineEdges | src/core/chunking.rs:266-280 | A line's range goes from its beginning to a character that is not white space. |
| AtomShapes.AtomsAre | src/core/chunking.rs:218-237 | An atom is a paragraph that fits, a fitting line of one that does not, or a piece of a line that does not. |
| ChunkWindows.BackTo | src/core/chunking.rs:202-207 | Walking back stops at the first atom of the overlap, and always after the window's first atom. |
| ChunkWindows.GreedyEnd | src/core/chunking.rs:186-191 | A window takes as many atoms as fit into 1760 bytes, and at least one. |
| ChunkWindows.WalkBack | src/core/chunking.rs:202-214 | The next window starts where the overlap and carry rules say, later than this one. |
| ChunkWindows.WindowAdvances | src/core/chunking.rs:182-215 | Consecutive windows: starts strictly increase, ends never decrease, no atom is left out, at most 480 bytes are shared. |
| ChunkWindows.NextWindowShares | src/core/chunking.rs:198-214 | The next window shares exactly the atoms, but the first, that begin in the last 240 bytes, and a last atom of at most 480 bytes. |
| ChunkWindows.NoMoreWindowsThanAtoms | src/core/chunking.rs:182-215 | There are at most as many windows as atoms. |
| ChunkWindows.WindowsAreDetermined | src/core/chunking.rs:182-215 | The rules admit one list of windows only. |
| ChunkWindows.WindowInsidePrevious | src/core/chunking.rs:202-214 | A window can lie wholly inside the one before it. |
| ChunkWindows.WindowText | src/core/chunking.rs:192-193 | Every window is a slice at character boundaries of at most 1760 bytes. |
| ChunkWindows.WindowsCover | src/core/chunking.rs:170-216 | Every character of a split text that is not white space is in a window, at its place. |
| ChunkWindows.NoAtomsIffBlank | src/core/chunking.rs:177-180 | Only blank texts have no atoms. |
| ChunkWindows.SplitOversized | src/core/chunking.rs:170-216 | The method returns exactly the windows of the text, or the whole text. |
| PageChunks.PushCappedChunks | src/core/chunking.rs:138-156 | The method pushes exactly the parts of the text. |
| PageChunks.PartsHold | src/core/chunking.rs:135-156 | Every character that is not white space is in a part, as a slice around it. |
| PageChunks.PartsAreNumbered | src/core/chunking.rs:151-164 | Several parts are numbered 1 to n of n and stay within 440 tokens. |
| PageChunks.PartHeadingsDiffer | src/core/chunking.rs:158-164 | Different parts of a text have different headings. |
| TextSpan.AtomsSpan | src/core/chunking.rs:218-264 | The atoms of a text reach from the start of its first line with text to the end of its text. |
| PageChunks.CapFailsIff | src/core/chunking.rs:145-149 | A chunk of a text exceeds the cap exactly if the text has at least 1924 bytes, but at most 1760 from the start of its first line with text to the end of its text. |
| PageChunks.PageCapFailsIff | src/core/chunking.rs:24-149 | A chunk of a page exceeds the cap exactly if one of its truth sections or timeline entries is such a text. |
| PageChunks.BlankTailExceedsCap | src/core/chunking.rs:78-149 | A page whose timeline is a letter followed by 1923 or more blanks has one chunk, and it exceeds the cap. |
| PageChunks.SectionsKeepLines | src/core/chunking.rs:41-58 | Sections put together are the lines of the truth. |
| PageChunks.SectionsStartAtHeadings | src/core/chunking.rs:41-58 | A heading is only ever the first line of a section, and every later section has one. |
| PageChunks.TruthChunks | src/core/chunking.rs:30-76 | The method returns the parts of every section under its own heading, which `HeadingOfSection` and `SectionOfChunk` describe. |
| PageHeadings.HeadingOfSection | src/core/chunking.rs:42-54 | The heading of a section that begins with `## ` and a text is that text without the white space around it. |
| PageHeadings.NoHeading | src/core/chunking.rs:60-65 | A section that does not begin so has no heading. |
| PageHeadings.PartHeadingIs | src/core/chunking.rs:158-164 | A part's heading is that of the whole, a blank, and in brackets the decimal numerals of its number and of how many there are, without leading zeros. |
| PageHeadings.SectionOfChunk | src/core/chunking.rs:30-76 | Every chunk of the truth is a part of one of its sections, under that section's heading, with the page's slug, its kind and a quarter of its bytes as tokens, at least one. |
| PageHeadings.EntryOfChunk | src/core/chunking.rs:78-107 | Every chunk of the timeline is such a part of one of its entries. |
| PageHeadings.HeadingOfEntry | src/core/chunking.rs:86-96 | The heading of an entry is its first line that is not blank, without the white space around it. |
| PageHeadings.BoundaryIff | src/core/chunking.rs:314-316 | A boundary is three hyphens, followed by nothing but carriage returns. |
| PageChunks.TruthReachesChunk | src/core/chunking.rs:30-76 | Every character of the truth that is not white space is in a chunk of its section. |
| PageChunks.GroupsPartition | src/core/chunking.rs:109-127 | The timeline groups are the lines that are not boundaries, each once and in order. |
| PageChunks.GroupsHaveNoBoundary | src/core/chunking.rs:109-127 | No group is empty or holds a boundary line. |
| PageChunks.GroupsOfRun | src/core/chunking.rs:109-127 | Lines without a boundary among them are one group. |
| PageChunks.BoundaryParts | src/core/chunking.rs:109-127 | A boundary parts the groups before it from those after it. |
| PageChunks.WithTextAre | src/core/chunking.rs:129-132 | The entries are those that are not blank. |
| PageChunks.SplitTimelineEntries | src/core/chunking.rs:109-133 | The method returns the groups joined, blank ones dropped. |
| PageChunks.EntryHasHeading | src/core/chunking.rs:86-96 | Every entry's heading is the trimmed text of its first line with text, never empty. |
| PageChunks.TimelineChunks | src/core/chunking.rs:78-107 | The method returns the parts of every entry under its heading. |
| PageChunks.TimelineReachesChunk | src/core/chunking.rs:78-133 | Every character of a timeline line that is not white space, boundaries apart, is in a chunk. |
| PageChunks.ChunkPage | src/core/chunking.rs:24-28 | Truth chunks first, then timeline chunks, each under the heading of its section or entry. |
| EmbeddingIndex.DropKeepsConsistent | src/commands/embed.rs:338-348 | Dropping pages' rows together with their vectors keeps rows and vectors one to one and numbered. |
| EmbeddingIndex.InsertKeepsConsistent | src/commands/embed.rs:350-374 | Inserting a page's next chunk under an unused rowid keeps them so. |
| EmbeddingIndex.ConsistentPassesValidator | src/commands/validate.rs:322-390 | A consistent index makes the validator's orphan and stale-rowid queries return nothing. |
| EmbeddingIndex.ValidatorIsExact | src/commands/validate.rs:299-390 | All queries return nothing exactly if all rows are the active model's and match its vectors one to one. |
| EmbeddingIndex.OrphanCountedIff | src/commands/validate.rs:373-390 | The vector-orphan query counts an orphaned vector exactly if no row of another model has its rowid, and nothing else. |
| EmbeddingIndex.OrphanCountExactIff | src/commands/validate.rs:373-390 | Its count is right exactly if no orphaned vector has the rowid of another model's row. |
| EmbeddingIndex.OrphanQueryIsModelBlind | src/commands/validate.rs:373-390 | An index whose only orphan it misses. |
| EmbedPass.Store.ReplacePageEmbeddings | src/commands/embed.rs:320-378 | Afterwards the page's rows record its chunks in order, each with its vector, and nothing else changed; a failure at any point changes nothing. |
| EmbedPass.Store.Purge | src/commands/collection.rs:668-697 | The collection's pages, rows and vectors go, all others stay, and the index is consistent. |
| EmbedPass.InsertsChunk | src/commands/embed.rs:351-374 | One insertion extends the recorded chunks by one and leaves other pages and models alone. |
| EmbedPass.NextBatch | src/commands/embed.rs:179-196 | After n pages the next batch is the following ones, for every batch size. |
| EmbedPass.RefreshIff | src/commands/embed.rs:248-290 | A page needs a refresh exactly if its recorded chunks differ from its content's. |
| EmbedPass.Store.EmbedPage | src/commands/embed.rs:81-134 | One page: it fails exactly if it does not load, or is due and its transaction fails; it ends the pass exactly if its rows are needed and cannot be read; it is replaced exactly if its content has chunks, nothing of this happens, and all pages are due, the version differs, or its recorded chunks are others, and then its rows record its chunks, each with its vector; otherwise nothing changes. |
| EmbedPass.Store.RunBulk | src/commands/embed.rs:69-146 | Given what goes wrong: the pass ends exactly at the first batch query or page whose rows cannot be read, or at recording the version; the pages visited that fail, and those embedded with their chunks, are counted exactly; exactly the latter are embedded, all other pages and models keep rows and vectors. Without faults it is neither aborted nor failed. A clean pass leaves all pages current, records the version, and makes rows match content exactly where the content has chunks or no rows were there; with `--all` or another version every page with chunks has its vectors; a default pass over current pages embeds nothing. |
| EmbedPass.PassGoesOn | src/commands/embed.rs:81-135 | What a pass has established about the pages visited so far survives the next page. |
| EmbedPass.CleanPass | src/commands/embed.rs:75-143 | A pass over all pages in which none fails leaves all current, and embeds every page with chunks if all are due. |
| EmbedPass.NoFaultsNoFailures | src/commands/embed.rs:75-143 | If nothing goes wrong, no page fails and nothing ends the pass. |
| EmbedPass.ResolvesToBest | src/core/pages.rs:75-86 | A key without namespace resolves to the first page in the namespace order. |
| EmbedPass.PrefersIff | src/core/pages.rs:75-86 | The global namespace comes before all others, and those in bytewise order. |
| EmbedPass.LessIff | src/core/pages.rs:79 | Bytewise order: the first difference decides, and a prefix comes first. |
| EmbedPass.OwnContentIff | src/commands/embed.rs:83 | A page is embedded from its own content exactly if no page of the same slug comes before it. |
| EmbedPass.NamespacesShareContent | src/commands/embed.rs:83 | Two namespaces of one slug are both embedded from the global page. |
| Ingest.Store.Run | src/commands/ingest.rs:52-182 | The transaction with its rollbacks computes the outcome and state of the specification, whose outcomes `OutcomesDecided` and `FailsIffReached` give. |
| Ingest.Store.Rotate | src/core/raw_imports.rs:21-70 | Rotation, with the frontmatter update, pruning and the checks at both ends. |
| IngestRuns.ActiveRotated | src/core/raw_imports.rs:21-70 | After a rotation the page's one active row is the new one, and other pages keep theirs. |
| IngestRuns.ChecksPass | src/core/raw_imports.rs:98-151 | In every reachable state the rotation checks hold, so only a failing statement makes a run fail. |
| IngestRuns.VersionsCountIngests | src/commands/ingest.rs:104-149 | Over every sequence of ingests a page's version counts its ingests, its content and frontmatter are those of the last, and its one active import holds the last bytes. |
| IngestRuns.FrontmatterFitsImport | src/core/raw_imports.rs:46-64 | If commands read the frontmatter from their own bytes, a page's frontmatter is always that of its active import. |
| IngestRuns.FailureChangesNothing | src/commands/ingest.rs:152-181 | A failing run changes nothing. |
| IngestRuns.OutcomesDecided | src/commands/ingest.rs:52-102 | After every run a command without failures is a duplicate exactly if it comes without force and some page keeps its bytes; not novel exactly if it comes without force, no page keeps its bytes, its page exists and the novelty check answers no; and is ingested otherwise, so also when that check fails. |
| IngestRuns.FailsIffReached | src/commands/ingest.rs:52-182 | A failing statement makes the command fail exactly if the command reaches it; otherwise the outcome is what it is without failures. |
| IngestRuns.IngestStores | src/commands/ingest.rs:104-149 | An ingested command stores the page's next version with its content and frontmatter, and its bytes as the page's one active import, and changes no other page. |
| IngestRuns.ForceIngests | src/commands/ingest.rs:54-57 | With force, bytes are ingested whether or not a page keeps them and whether or not they are novel. |
| IngestRuns.RowsAfterIngest | src/core/raw_imports.rs:21-70 | The rows after an ingest are the new one and those that were there, the page's own no longer active, without those that pruning takes. |
| IngestRuns.DuplicateIffRetained | src/commands/ingest.rs:184-213 | Without force an ingest is a duplicate exactly if some page still keeps the bytes. |
| IngestRuns.PagesUnchangedIff | src/commands/ingest.rs:52-149 | A command without force and without failures changes no page exactly if some page still keeps its bytes or its content is not novel. |
| IngestRuns.DuplicateMovesPath | src/commands/ingest.rs:215-241 | A duplicate moves the source path of its own page's active import, if that has the bytes, and no other. |
| IngestRuns.DuplicateKeepsRows | src/commands/ingest.rs:215-241 | A duplicate changes no row but that one. |
| IngestRuns.KeepAllNeverRepeats | src/core/raw_imports.rs:153-156 | With pruning off no bytes are ingested twice without force. |
| IngestRuns.PruningForgets | src/core/raw_imports.rs:153-184 | Keeping no history, a file that returns to earlier bytes is ingested again. |
| IngestHistory.PruneBounds | src/core/raw_imports.rs:153-184 | Pruning leaves at most the limit of inactive imports of the page, none of them expired. |
| IngestHistory.PruneKeepsRecent | src/core/raw_imports.rs:153-184 | Pruning keeps what is recent enough and within the limit. |
| IngestHistory.PruneTakesOldest | src/core/raw_imports.rs:161-177 | With a row, pruning keeps all later inactive ones of the page, by time and then by id. |
| IngestHistory.PrunedIff | src/core/raw_imports.rs:153-184 | A row goes exactly if it is an inactive one of the page that is too old or has as many newer ones as the limit. |
| IngestHistory.HistoryIsBounded | src/core/raw_imports.rs:1-8 | Over every sequence of ingests a page never has more inactive imports than the limit. |
| GraphTree.TreeWriter.WriteChildren | src/commands/graph.rs:170-201 | The recursive printer appends the lines of the tree below the path, restores the active path, and ends on every graph. |
| GraphTree.TreeWriter.RenderTree | src/commands/graph.rs:125-146 | The root line, then for each path of the tree, in order, a line of two blanks for each of its edges, an arrow, the page its last edge leads to, and that edge's relationship in brackets. |
| GraphTree.PrintsSimplePaths | src/commands/graph.rs:170-201 | The printed paths are exactly the simple paths from the root, parallel edges apart. |
| GraphTree.PrintsInPreorder | src/commands/graph.rs:170-201 | They come in preorder and none twice. |
| FocusedGraph.Search | playground/server/db.ts:359-383 | After every round the seen pages are a full ball; the search ends with the depth clamped to 0 and 4, a closed component or the first ball of more than 400 pages; up to 400 pages it is the ball of the clamped depth. |
| FocusedGraph.Expand | playground/server/db.ts:362-379 | One round adds exactly the neighbours of the frontier, and the new ones are the next frontier. |
| FocusedGraph.ShellSuffices | playground/server/db.ts:362-379 | Expanding the last shell is expanding the whole ball. |
| FocusedGraph.BallIsWalks | playground/server/db.ts:359-383 | The ball of radius k is what walks of at most k live links, in either direction, reach. |
| FocusedGraph.FirstBall | playground/server/db.ts:365-371 | One link reaches the pages at the other end of a live link, whichever way it points. |
| FocusedGraph.BallIsSymmetric | playground/server/db.ts:359-383 | If a page is within k links of another, that one is within k links of it. |
| FocusedGraph.DeadLinksDoNotMatter | playground/server/db.ts:365-371 | Links that are no longer valid lead nowhere. |
| FocusedGraph.LinksAmong | playground/server/db.ts:390-398 | The links returned are the live ones with both ends seen. |
| Pipe.ReadLimitedLine | src/commands/pipe.rs:23-92 | For every cutting into fills and every limit the line read is the stream's first line, too long exactly if it exceeds the limit, and no more than the limit is buffered. |
| Pipe.SplitRoundTrip | src/commands/pipe.rs:23-92 | Splitting the stream into lines loses nothing but a missing last newline. |
| Pipe.RunWithIo | src/commands/pipe.rs:100-153 | The loop writes the answers of the stream's lines, in order, and reads to the end. |
| Pipe.OneAnswerEach | src/commands/pipe.rs:106-151 | Exactly the lines that are too long, not UTF-8 or not blank get one answer each, in order: the limit, a read error, or the reply to the trimmed line. |
| Sse.ParseSseEvent | playground/server/mcp.ts:156-167 | The event holds the last event name and the data lines. |
| SseFields.EventOfLines | playground/server/mcp.ts:156-167 | For lines ended in either way, the event's name is what the last `event:` line says, if there is one, and its data are the values of the `data:` lines, each trimmed and on a line of its own, the whole trimmed. |
| Sse.DrainBlocks | playground/server/mcp.ts:120-129 | The inner loop delivers every complete block and leaves none. |
| Sse.BlocksJoin | playground/server/mcp.ts:119-129 | Cutting blocks from a part and then from what is left plus the rest is cutting them from the whole. |
| Sse.ReadSse | playground/server/mcp.ts:106-131 | The events are those of the whole received text, however it arrives. |
| Sse.ReceivedIffPairsKept | playground/server/mcp.ts:119 | The received text is the normalised text sent exactly if no read ends inside a carriage-return line-feed pair. |
| Sse.CuttingDoesNotMatter | playground/server/mcp.ts:106-131 | Two cuttings of the same text give the same events if both keep pairs, always so without carriage returns. |
| Sse.CutPairHidesBlock | playground/server/mcp.ts:119-120 | A cut pair can hide the end of a block, for every one-line block. |
| SseCuts.OtherCutsAreHarmless | playground/server/mcp.ts:106-131 | Cuts inside pairs that do not directly follow a line feed change no event. |
| SseReads.ReadEndMattersIff | playground/server/mcp.ts:106-131 | For every stream and every read end, two reads give other events than the two read as one exactly if they cut a pair, the buffer then ends a line, no line feed follows the pair, and the block in the buffer has data but no block follows, or both it and the next block have data, or one has and takes another name from the other. |
| McpClient.McpSseClient.Register | playground/server/mcp.ts:29-37 | Every request gets an id never used before. |
| McpClient.McpSseClient.TimeOut | playground/server/mcp.ts:32-36 | The timer rejects only a pending request. |
| McpClient.McpSseClient.PostFailed | playground/server/mcp.ts:50-53 | A failed POST withdraws the request. |
| McpClient.McpSseClient.HandleMessage | playground/server/mcp.ts:133-153 | A message settles the pending request it names, once; any other changes nothing. |
| McpClient.McpSseClient.Reset | playground/server/mcp.ts:58-65 | A reset rejects all pending requests and keeps all settled ones. |
| McpClient.McpSseClient.Connect | playground/server/mcp.ts:22-27 | A change of server rejects all pending requests with 503 and keeps what is settled; the same server changes nothing. |
| Budget.BudgetResults | src/commands/query.rs:114-145 | Of the first `limit` results the loop returns whole ones and perhaps a cut one, within four characters per token up to the counter's width, as many as fit. |
| Budget.BudgetHolds | src/commands/query.rs:108-145 | They are the first results, at most the last cut, within the budget, and maximal. |
| Budget.BudgetIsDetermined | src/commands/query.rs:108-145 | Nothing else satisfies these conditions. |
| Budget.LineIsRendered | src/commands/query.rs:108-125 | A result costs the characters of its slug, a colon, a blank and its summary. |
| Budget.WithinTokenBudget | src/commands/query.rs:114-119 | At most four characters per token and `limit` results, saturation included. |
| IgnoreFile.AddIgnorePatternContent | src/commands/collection.rs:863-874 | The method computes the content with the pattern added. |
| IgnoreFile.AddKeepsLines | src/commands/collection.rs:863-874 | Adding appends one line and keeps all others. |
| IgnoreFile.AddMakesPresentIff | src/commands/collection.rs:856-874 | The pattern is present afterwards, and adding is idempotent, exactly if a line can name the pattern. |
| IgnoreFile.NamesIff | src/commands/collection.rs:856-861 | A line names the pattern that is left of it without the white space around it; blank lines and comments name none. |
| IgnoreFile.UsableIff | src/commands/collection.rs:856-861 | A line can name exactly the patterns of one line that are not empty, no comment, and without white space around them. |
| IgnoreFile.NoFileIsEmpty | src/commands/collection.rs:863-881 | A file that is not there is an empty one, for adding and removing. |
| IgnoreFile.RemoveMakesAbsent | src/commands/collection.rs:876-897 | The pattern is absent afterwards. |
| IgnoreFile.RemoveKeepsLinesIff | src/commands/collection.rs:876-897 | All other lines stay in order exactly if the file ends with a newline or the last line left is not empty; otherwise only that line is lost. |
| IgnoreFile.RemoveUndoesAdd | src/commands/collection.rs:856-897 | Removing an added pattern restores the lines. |
| IgnoreFile.RemoveLosesBlankLine | src/commands/collection.rs:876-897 | A blank line before an unterminated last pattern is lost with it. |

## Left out

- VaultSafety.RecoveryHeals: recovery reads the file's stat, digest and bytes in one step, so an outsider who acts between them is not modelled; nor is a page that recovery puts in quarantine because it has state of its own in the database, or whose extracted text changed by white space only.
- VaultScenarios.CoherentIffLocked: the same holds here, and other reconciles (watcher, attach, audit) are not modelled.
- Collections whose recovery the code skips (restoring, halted, incomplete), and the `needs_full_sync` flag, which makes new puts wait for a recovery: puts and recoveries interleave freely.
- Outsiders remove the folder of the file only while no put works in it.
- Agreement of row and file is by digest, as in the code: different texts with one digest count as the same.
- VaultConflicts.PreconditionGuardsEdits: the stat and the hash of the check are one step, so an outsider acting between them is not modelled; neither are file-state rows without an inode or change time.
- VaultConflicts.CompareAndSwap: superseding, links and entity extraction count only as possible failures of the staging statement.
- Several namespaces that share one vault file, the self-write suppression registry's contents, and the in-memory and non-Unix paths of a put.
- The sync of the sentinel file and of the directory that holds it is one step; folders are made in one step, whatever their depth.
- The branch for a target path without a file name, which a slug cannot produce, and the test hooks of a put.
- VaultFaults.AlonePutSucceeds: one put with nobody else acting between its calls; what interference does is in `ErrIffSomeCallFails` and the machine's other results.
- Ingest.Store.Run: links, entities and the other graph artifacts count only as a possible failure; novelty, parsing and the digest are parameters.
- EmbedPass.Store.Purge: the refusal of unsafe table names and the collection's own state row are not modelled; a model's vector table is named by the model.
- EmbedPass.Store.RunBulk: the chunk list stands for the page's content and embedding is a function of the chunk; embedding one page by its slug is not modelled.
- PageChunks.ChunkPage: the content hash of a chunk, a function of its content, is left out.
- Sse.ParseSseEvent: text is a sequence of characters, not of UTF-16 units; lone carriage returns, comments and the `id` and `retry` fields of section 9.2.6 of the WHATWG HTML standard are not handled by the code either, and it trims field values where the standard removes one space.
- SseReads.ReadEndMattersIff: one read end at a time, whatever the others are; several cuts in one run of empty lines are described one after the other.
- Pipe.ReadLimitedLine: reader I/O errors are not modelled; UTF-8 decoding, parsing and dispatch are parameters.
- McpClient.McpSseClient.Connect: the endpoint promise and the HTTP calls are not modelled.
- FocusedGraph.Search: finding the root by slug, and depths that are not whole numbers.
- IgnoreFile.AddKeepsLines: files with carriage returns; the theorems are about LF text.
- GraphTree.TreeWriter.RenderTree: the block of path explanations after the tree.
- The temporal-overlap queries of `check_links`, `makePathTree`, the whole-graph query and the entity-extraction loop, which would add easy members.
- IPC proxying, authentication, HTTP handling, CLI parsing and rendering, daemon, setup and user interface.
