# Verified model of viking-go

A Dafny model of the parts of viking-go whose correctness is not visible in any one function, with proofs of what they
are for. To verify it, run `dafny verify dfyconfig.toml` in this directory.

## What is modelled

- **Semantic DAG executor** (`Dag*.dfy`). The directory tree, one goroutine per kept file, the dispatching thread and the
  counting semaphore are a step system in which any enabled thread may move; a step is one shared access, one critical
  section or one callback. The invariant is inductive over steps for trees of any size. Safety, exact results, a bound on
  the length of every run, and the exact capacity at which the executor cannot get stuck are theorems about all
  interleavings. The class `SemanticDagExecutor` builds the graph and runs such a schedule until it ends or hangs.
- **Path locks** (`Lock*.dfy`). `LockModel` gives each operation as a relation on abstract states with a clock that never
  runs backwards; `LockManager` is the object with its two linked structures, and each of its methods performs one such
  step. Theorems are about single steps and whole runs.
- **Filters** (`Filter*.dfy`). Filter trees compile to token clauses with positional arguments; a parser with SQL
  precedence, a three-valued evaluator and a `%`/`_` matcher give the clauses their meaning.
- **Directory sync** (`FileTree.dfy`, `Diff*.dfy`). A file system object with paths, removal and renaming, and the two
  loops of the sync working on it. The report is specified entry by entry, in order.
- **Hierarchical search** (`Search*.dfy`). The loop over a binary heap and an arbitrary oracle of children and reranked
  scores; trails record where every score comes from.
- **Embedding queue** (`WorkQueue.dfy`), **ranking metrics** (`Ranking.dfy`), **API keys** (`ApiKey*.dfy`), **note
  mirroring** (`Note*.dfy`) and **memory fields** (`Number*.dfy`, `Json*.dfy`, `Memory*.dfy`).

The modules whose names end in `Laws`, with `DagOutcome` and `DiffReport`, state the results once more in the terms of the
inputs alone: fields, clock readings, trees, patch objects and literal texts instead of the functions of the model.

`Prelude.dfy` and `Strings.dfy` hold shared vocabulary: finite sets, sorted names, text.

Where the model meets the outside world it takes parameters: summaries, search results, reranked scores and hotness are
arbitrary functions, listings and note servers are arbitrary oracles, time is any nondecreasing reading, keys are any
strings, and iteration over Go maps is an arbitrary order.

## What the proofs found

- The executor needs more semaphore tokens than the tree has bottom directories, directories with a kept file and none in
  any directory below; with fewer it can deadlock, because a file goroutine keeps its token while it completes its
  directory. The bound is exact (`DeadlockFreeExactly`).
- Subtree locks on `a` and `a/` can be held by two handles at once, although they name one directory
  (`TwinsBothGranted`).
- A refused batch takes away locks that its handle held before: with a lock on `/a`, and `/bb` locked by another handle, the
  batch of both loses `/a` (`HeldEntryLost`). When that can happen is decided before the call (`MayLoseExactly`).
- Releasing a handle whose expired lock was taken over deletes the live lock of the new owner (`ForeignEntryLost`); the
  conditions under which an entry does survive are exact (`EntrySurvives`, `AgreementExact`).
- With SQLite's case folding a path scope with depth other than 0 selects more than it names for every base with a
  letter (`ExactIff`), but all descendants are always selected (`NeverMisses`).
- A file that makes way for a directory is listed twice among the deleted files; without such a file every deleted file
  is listed once (`DeletedOnceExactly`). A sync from a source that is not there empties an existing target
  (`MissingSourceEmpties`).
- Repeated relevant results can lift NDCG above 1 (`DuplicatesExceedOne`); it is certain to stay at most 1 exactly when
  the results hold no more hits, repetitions counted, than min(k, number expected) (`AtMostOneExactly`).
- A new key with the prefix of another user's key shuts that user out; this is the only way to break the key index
  (`StepValidExactly`, `CollisionLocksOut`).
- A memory without fields whose content looks like a complete header does not read back, and nothing else is lost
  between edits (`ReadsBackExactly`, `TextFollowsMemory`). A sum field that holds an empty string never adds anything up
  (`SumExactly`).

## Model

| member | source | states |
|---|---|---|
| DagBuild.SemanticDagExecutor.constructor | internal/queue/semantic.go:138-155 | A capacity of zero or less becomes 10; the graph starts empty. |
| DagModel.AfterLastSlash | internal/queue/semantic.go:201-206 | The cut is the position after the last slash: nothing at or behind it is a slash. |
| DagModel.NamesOnly | internal/queue/semantic.go:201-206 | A text without slashes that the URI ends with, behind a slash or as a whole, is its name; a URI that is empty or ends in a slash is its own name; no URI has two. |
| DagOutcome.KeptInOrder | internal/queue/semantic.go:214-222 | The filtered list holds, in order, exactly the files whose name is not `messages.jsonl` and does not begin with a dot. |
| DagOutcome.ListedExactly | internal/queue/semantic.go:208-212 | Building succeeds exactly when every visited directory can be listed: the root, and when recursive all below it. |
| DagBuild.SemanticDagExecutor.BuildNode | internal/queue/semantic.go:214-240 | The node keeps exactly the files that are neither skipped nor hidden, in order, and indexes files and child directories by position. |
| DagBuild.SemanticDagExecutor.BuildDag | internal/queue/semantic.go:208-261 | Succeeds exactly when every listing does, and then records the node and the parent link of every directory of the (recursively or not) listed tree. |
| DagTree.BuiltWellFormed | internal/queue/semantic.go:208-261 | For any finite listing with distinct URIs the two maps form a tree: indices and parent links invert each other, heights grow strictly towards the root. |
| DagBuild.SemanticDagExecutor.Execute | internal/queue/semantic.go:159-174 | Fails exactly when a visited directory cannot be listed. Otherwise, whatever enabled thread moves at each step, it either ends with one task of type `file` per kept file and one of type `directory` per visited directory and no other, each with the two texts that `summarize` gave for its URI, every slot filled with name and texts, all summaries made once and bottom-up, as many done as tasks, and `done` closed once; or it comes to a reachable state in which no thread can move, and that only with too few tokens for the tree. |
| DagSteps.CompletionKeepsInv | internal/queue/semantic.go:327-387 | Every step of `onNodeComplete`, by any thread, keeps the invariant, including the report that fills the slot of the parent and decrements its `Pending`. |
| DagFileSteps.FileStepKeepsInv | internal/queue/semantic.go:281-319 | Every step of a file goroutine keeps the invariant. |
| DagDispatchSteps.DispatcherStepKeepsInv | internal/queue/semantic.go:263-325 | Every step of the dispatching thread keeps the invariant, including the race on a directory without files. |
| DagDispatchSteps.StepKeepsInv | internal/queue/semantic.go:263-387 | Every step of every thread keeps the whole invariant: `Pending` equals the number of empty child slots, one owner for each claimed node, tokens match the threads that hold them, no wake-up is lost. |
| DagTheorems.ReachableInv | internal/queue/semantic.go:159-387 | The invariant holds in every state of every interleaving. |
| DagTheorems.ClaimedChildren | internal/queue/semantic.go:309-318 | Once a directory has passed its `OverviewDone` guard, each kept file has delivered and each child directory has finished. |
| DagTheorems.SummarizedBottomUp | internal/queue/semantic.go:316-337 | When a directory is summarized, every kept file and directory below it, at any depth, has been summarized, has filled its slot and has queued its task. |
| DagTheorems.AtMostOnce | internal/queue/semantic.go:328-334 | In every reachable state no file or directory has been summarized twice, no task is queued twice, `done` is closed at most once, and no `Pending` counter is negative. |
| DagTheorems.ReturnedComplete | internal/queue/semantic.go:159-193 | When Execute returns nil the tasks are exactly, field by field, one per kept file and one per node, each slot holds the name after the last slash with the texts of `summarize`, `DoneNodes` is the number of tasks, which is that of files plus nodes, and `PendingNodes` and `RunningNodes` are zero. |
| DagOutcome.TasksDelivered | internal/queue/semantic.go:299-355 | Told over the listing: the tasks of the visited directories and of their kept files, with type, URI, both texts, context type and parent. |
| DagOutcome.SlotsDelivered | internal/queue/semantic.go:293-314 | The k-th kept file of a directory fills its k-th slot, and each visited subdirectory the slot of its position. |
| DagOutcome.CallsDelivered | internal/queue/semantic.go:284-338 | Every visited directory is summarized once, after all files in its slots and all its visited subdirectories. |
| DagProgress.StepGrows | internal/queue/semantic.go:263-387 | No step undoes progress, and every step makes some: each uses up part of the remaining work. |
| DagProgress.RunsAreFinite | internal/queue/semantic.go:159-387 | Every interleaving stops within 10 steps per file, 9 per directory and 3 per dispatched node, plus 2. |
| DagProgress.CallsComeBottomUp | internal/queue/semantic.go:286-337 | In the order of the summarize calls of any run, each directory comes after all its kept files and child directories. |
| DagDeadlock.NeverStuck | internal/queue/semantic.go:281-283 | With more tokens than bottom directories (a kept file, and none in any directory below) some thread can move in every reachable state until Execute returns. |
| DagStuck.CanGetStuck | internal/queue/semantic.go:336-338 | With no more tokens than bottom directories there is an interleaving in which every token is held by a file goroutine waiting for a second one. |
| DagStuck.DeadlockFreeExactly | internal/queue/semantic.go:281-338 | The executor is free of deadlock in all interleavings if and only if the capacity exceeds the number of bottom directories. |
| LockPaths.AncestorIsBelow | internal/storage/transaction.go:307-319 | The ancestor test is exactly being reached from the directory by at least one more character. |
| LockPaths.ConflictSymmetric | internal/storage/transaction.go:294-305 | Which of two locks is the new one makes no difference to the conflict. |
| LockPaths.ConflictExact | internal/storage/transaction.go:294-319 | The conflict test equals intersection of the covered path sets, except for two subtree locks on one directory spelled without and with a final slash. |
| LockPaths.ConflictIsOverlap | internal/storage/transaction.go:294-319 | For paths that do not end in a slash there is no exception. |
| LockPaths.TwinsMissed | internal/storage/transaction.go:307-319 | The exception exists: subtree locks on "a" and "a/" overlap without conflict. |
| LockModel.SortAscending | internal/storage/transaction.go:112-119 | The batch order is a permutation with shorter paths first and, of two equally long ones, the one with the smaller character at the first difference. |
| LockInvariant.AcquireKeepsInv | internal/storage/transaction.go:245-284 | Granting or refusing a lock keeps exclusivity, the listing of every entry by its owner, and the expiry bounds. |
| LockInvariant.BatchKeepsInv | internal/storage/transaction.go:107-136 | So does a batch, granted or rolled back. |
| LockInvariant.ReleaseKeepsInv | internal/storage/transaction.go:139-148 | After a release the handle owns no entry, and the invariant holds. |
| LockInvariant.EvictKeepsInv | internal/storage/transaction.go:192-198 | Evicting handles with all paths they list leaves no entry of theirs. |
| LockInvariant.StepKeepsInv | internal/storage/transaction.go:79-371 | Every operation keeps the invariant and never moves the clock back. |
| LockInvariant.DisjointCoverage | internal/storage/transaction.go:245-319 | In every state of every run, entries of different handles cover no common path, twin subtree locks aside. |
| LockTheorems.BatchGranted | internal/storage/transaction.go:106-136 | A granted batch owns every path, keeps what the handle had (a point lock is not upgraded), and removes exactly the rivals of the paths it did not hold, all expired. |
| LockTheorems.BatchNotGranted | internal/storage/transaction.go:125-132 | A refused batch adds nothing, loses no unexpired foreign entry, was refused because of a rival that is still there and alive, and takes from the handle exactly its entries among the paths tried. |
| LockTheorems.AllOrNothing | internal/storage/transaction.go:125-132 | A refused batch leaves the entries of the handle as they were if and only if it held none of the paths tried before the refusal. |
| LockRefusals.RefusableExactly | internal/storage/transaction.go:107-136 | Seen before the call: the batch can be refused at its path number j if and only if an entry alive now stands against that path, which the handle neither holds nor names earlier, and whatever the earlier paths would take over expires before that entry. |
| LockRefusals.MayLoseExactly | internal/storage/transaction.go:107-136 | Some outcome of a batch takes an entry of its own handle away if and only if the batch can be refused at a path that comes after one the handle holds. |
| LockRefusals.NoneHeldNoneLost | internal/storage/transaction.go:107-136 | A handle that holds none of the paths loses nothing, granted or refused. |
| LockRefusals.HeldEntryLost | internal/storage/transaction.go:125-132 | It happens: for any two paths apart from each other there is a run in which a handle holds the shorter one, is refused a batch of both because of the longer one, and has lost the shorter one. |
| LockLifetime.EntrySurvives | internal/storage/transaction.go:106-371 | For each operation, an unexpired entry stays if and only if the operation is not one of the listed removals. |
| LockLifetime.AgreementExact | internal/storage/transaction.go:106-371 | When table and lists agree, they agree after a step if and only if the step took over no expired lock (a grant met no rival, a refusal dropped none), rolled back no granted path and swept no expired lock of a busy handle. |
| LockRefusals.RefusalDisagreesExactly | internal/storage/transaction.go:245-284 | Seen before the call: some refusal of a request ends the agreement if and only if a live rival and one that expires earlier both stand in the way, an entry at the path itself expiring earlier as well. |
| LockRefusals.BatchDisagreesExactly | internal/storage/transaction.go:107-136 | Some refusal of a batch ends the agreement if and only if it can be refused after its first path, or at the first path in the way just described. |
| LockLifetime.OrderlyRunAgrees | internal/storage/transaction.go:106-371 | In runs of such steps the two structures always agree. |
| LockLifetime.HeldUntilReleased | internal/storage/transaction.go:139-371 | In such runs an entry stays until its owner gives it up, the manager stops, or it expires. |
| LockLifetime.EvictedOnlyExpired | internal/storage/transaction.go:338-354 | The cleanup evicts a handle only when every lock it lists has expired. |
| LockLifetime.ForeignEntryLost | internal/storage/transaction.go:143-145 | Otherwise not: there is a run in which releasing one handle removes the live entry of another, because release deletes by path. |
| LockLifetime.TwinsBothGranted | internal/storage/transaction.go:245-319 | For every path without a final slash there is a run at whose end two handles hold live subtree locks on the one directory, spelled without and with the slash. |
| LockLaws.HeldAlready | internal/storage/transaction.go:248-250 | A handle that owns the entry at the path is told yes and nothing changes. |
| LockLaws.GrantLasts | internal/storage/transaction.go:272-282 | A grant writes one entry at the path, with the requested type and owner, acquired at a clock reading during the call and expiring exactly the expiry time later; the handle lists it last. |
| LockLaws.GrantTakesOver | internal/storage/transaction.go:251-270 | Other entries stay exactly when they are of the same handle or cover no common path; those that go had expired during the call. |
| LockLaws.RefusedByLive | internal/storage/transaction.go:253-268 | A refusal has a reason: an unexpired entry of another handle that covers a common path and is still there; nothing is gained, and only expired foreign entries are lost. |
| LockLaws.NewEntryLasts | internal/storage/transaction.go:106-284 | Every new entry, whatever operation wrote it, came from a granted request of its owner and expires no earlier than the clock before the call plus the expiry time. |
| LockLaws.BatchLasts | internal/storage/transaction.go:121-135 | So does every path of a granted batch that the handle did not own before; those it owned keep their entries. |
| LockLaws.GrantExcludes | internal/storage/transaction.go:245-319 | In every run, from the step that wrote an entry until its time is over, the entry is there and no other handle has a lock on a common path, unless a listed removal of that entry came between. |
| LockLaws.NobodyElseGranted | internal/storage/transaction.go:245-319 | So the request of another handle for a lock on a common path, alone or in a batch, is granted only after the clock has passed the time of the grant plus the expiry time, or after such a removal. |
| LockLaws.StopClears | internal/storage/transaction.go:188-199 | Stop removes exactly the paths that active handles list, empties their lists and forgets them. |
| LockLaws.CleanupEvicts | internal/storage/transaction.go:338-354 | The cleanup evicts exactly the active handles that list a lock and have been idle for longer than the expiry time. |
| LockLaws.CleanupSweeps | internal/storage/transaction.go:346-361 | An entry goes exactly when its time is over or an evicted handle lists its path. |
| LockManager.LockManager.constructor | internal/storage/transaction.go:63-76 | A non-positive expiry time becomes five minutes; everything starts empty. |
| LockManager.LockManager.CreateHandle | internal/storage/transaction.go:79-90 | A new, active handle with an empty list and a clock reading during the call. |
| LockManager.LockManager.AcquireLock | internal/storage/transaction.go:245-284 | Whatever the order of the scan, performs an acquire step of the model; after a grant the handle owns the entry at the path, and a new entry has the requested type, a clock reading during the call and the full expiry time. |
| LockManager.LockManager.AcquirePoint | internal/storage/transaction.go:93-97 | The same for a point lock. |
| LockManager.LockManager.AcquireSubtree | internal/storage/transaction.go:100-104 | The same for a subtree lock. |
| LockManager.LockManager.AcquireSubtreeBatch | internal/storage/transaction.go:107-136 | Performs a batch step: acquires in sorted order, all of it or rolled back; granted, the handle owns every path, and each new entry is a subtree lock with a clock reading during the call and the full expiry time. |
| LockManager.LockManager.Release | internal/storage/transaction.go:139-148 | Exactly the paths that the handle lists leave the table, its list is empty, it is no longer active, and no entry of it remains. |
| LockManager.LockManager.ReleaseSelected | internal/storage/transaction.go:151-171 | Exactly the given paths that the handle owns leave the table, and exactly the given paths leave its list. |
| LockManager.LockManager.Stop | internal/storage/transaction.go:188-199 | Removes every path that an active handle lists, empties the lists and forgets the handles. |
| LockManager.LockManager.CleanupStale | internal/storage/transaction.go:334-361 | Evicts exactly the stale handles and then removes every expired entry. |
| FilterTrip.MarksTrip | internal/storage/filter.go:38-42 | The placeholders of an IN list read back as its values, in order. |
| FilterTrip.Trip | internal/storage/filter.go:19-123 | However a compiled clause is continued, it parses, under the precedence of OR and AND, to the condition of the filter and consumes exactly its own arguments in order. |
| FilterMeaning.EvalMeans | internal/storage/filter.go:19-123 | That condition is TRUE in three-valued logic on exactly the rows the filter means, a comparison with NULL being no match. |
| FilterMeaning.OnePlaceholderEach | internal/storage/filter.go:19-123 | The clause has exactly one placeholder per argument. |
| FilterMeaning.CompiledMeaning | internal/storage/filter.go:19-123 | The compiled clause parses completely, leaves no argument over, and selects exactly the meant rows. |
| FilterMeaning.SearchK | internal/storage/store.go:232-236 | The number of neighbours is the larger of 50 and three times the limit. |
| FilterMeaning.VectorSearchBinds | internal/storage/store.go:218-247 | In the search statement the vector and k bind before the filter, the WHERE condition takes exactly the arguments of the filter, the limit is left for LIMIT, and the selected rows are the meant ones. |
| FilterMeaning.VectorSearchText | internal/storage/store.go:218-247 | The statement word by word with its arguments in order, with a filter and without one, one placeholder for each argument. |
| FilterMeaning.ClauseText | internal/storage/filter.go:19-43 | An equality, an IN list of the right length with its commas, and the two constant conditions for nothing to join. |
| FilterCompiler.ToSQL | internal/storage/filter.go:10-123 | The recursive compiler arrives at the compiled form for every filter tree. |
| FilterCompiler.InToSQL | internal/storage/filter.go:31-43 | No value is never true, one value is an equality, more are an IN list. |
| FilterCompiler.JoinedToSQL | internal/storage/filter.go:54-69 | Children that are not nil are joined in parentheses in order, with their arguments in the same order. |
| FilterCompiler.ScopeToSQL | internal/storage/filter.go:107-123 | The three shapes of a path scope with their patterns. |
| FilterCompiler.MergeFilters | internal/storage/filter.go:126-140 | Nil exactly when all filters are nil; otherwise the result means the conjunction of the filters that are not, a single one unchanged. |
| FilterScope.LikePrefix | internal/storage/filter.go:112-121 | A pattern with a wildcard-free prefix matches exactly the texts that start like the prefix and continue like the rest. |
| FilterScope.ScopeUpToCase | internal/storage/filter.go:107-123 | For a wildcard-free base, up to letter case, the patterns select the direct children and the descendants; the equality is exact. |
| FilterScope.ExactIff | internal/storage/filter.go:99-123 | A path scope selects exactly the paths it names if and only if the depth is 0 or the trimmed base has no wildcard and, with case folding, no ASCII letter. |
| FilterScope.NeverMisses | internal/storage/filter.go:117-122 | Whatever the base, the scope of all descendants never misses one. |
| DiffSync.VikingFS.Rm | internal/vikingfs/vikingfs.go:150-164 | Recursive removal always succeeds; otherwise only a file or an empty directory goes. |
| DiffSync.VikingFS.Mv | internal/vikingfs/vikingfs.go:363-385 | Creates the new parent and then renames; on failure only the parent may be new. |
| DiffSync.VikingFS.Ls | internal/vikingfs/vikingfs.go:189-225 | Lists each entry once, by name in byte order, with its kind. |
| DiffSync.ListChildren | internal/parse/diff_sync.go:165-189 | Exactly the visible files and directories by name; nothing when the listing fails. |
| DiffSync.CheckContentChanged | internal/parse/diff_sync.go:191-212 | For two files, true exactly when the contents differ. |
| DiffSync.SyncFile | internal/parse/diff_sync.go:74-128 | One name of the file loop changes the target entry and the report exactly as the model says, and nothing else in the file system. |
| DiffSync.SyncSubdir | internal/parse/diff_sync.go:133-162 | The same for one name of the directory loop, including the recursion: the entry of the target and the additions to the five lists. |
| DiffSync.SyncDir | internal/parse/diff_sync.go:67-163 | The target entries and the report of the whole recursion, and nothing outside the two directories touched. |
| DiffSync.SyncTopDownRecursive | internal/parse/diff_sync.go:45-65 | Into an existing directory: merged there, source removed, and every path in each of the five lists counted exactly over the two trees; a source that is not there counts as empty. Without a target: the source is moved and reported as one added directory, or the move fails. |
| DiffTheorems.SyncedAt | internal/parse/diff_sync.go:67-189 | What becomes of each name, in terms of the two trees: names beginning with a dot, two excepted, stay; of two files the source one is taken exactly when the status says so or, without one, when the contents differ; two directories are synced; any other name follows the source. |
| DiffTheorems.SyncedIffHonest | internal/parse/diff_sync.go:106-127 | The visible tree of the target ends equal to that of the source if and only if the given change status misses no changed file that meets a file. |
| DiffTheorems.SyncMakesEqual | internal/parse/diff_sync.go:67-163 | Comparing contents, for all pairs of trees, conflicts included, the visible trees end equal. |
| DiffTheorems.HiddenStays | internal/parse/diff_sync.go:175-180 | Hidden entries of the target survive. |
| DiffTheorems.EmptyIffEqual | internal/parse/diff_sync.go:22-25 | Comparing contents, the report is empty if and only if the visible trees were equal at the start. |
| Strings.NamesAscending | internal/parse/diff_sync.go:69-72 | The names of the loops come in byte order: a proper prefix first, otherwise the smaller character at the first difference. |
| DiffReport.ReportExactly | internal/parse/diff_sync.go:67-163 | For every path at any depth below directories that both sides have: an added file exactly for a source file without a target file, an updated one for two files of which one has changed, an added directory for a source directory without a target directory, a deleted directory for the converse, each once; a deleted file for a target file without a source file, twice when a source directory takes its place. |
| DiffReport.ReportOnlyBelow | internal/parse/diff_sync.go:67-163 | Added and updated paths lie below the source, deleted ones below the target, and no list has any other. |
| DiffReport.ConflictReportedTwice | internal/parse/diff_sync.go:88-141 | A file that makes way for a directory is reported as deleted by both loops, exactly twice. |
| DiffReport.DeletedOnceExactly | internal/parse/diff_sync.go:88-141 | The report lists no deleted file twice if and only if no source directory meets a target file of its name at any depth that both sides have. |
| DiffSync.SyncLaw | internal/parse/diff_sync.go:60-64 | For the whole file system: source gone, other paths untouched, visible entries equal exactly under an honest status, empty report exactly for trees equal at the start. |
| DiffSync.MissingSourceEmpties | internal/parse/diff_sync.go:60-74 | With nothing at the source, a sync into an existing target removes all its visible entries and keeps the hidden ones. |
| DiffSync.MoveLaw | internal/parse/diff_sync.go:48-57 | Without a target a successful sync puts the whole source tree there, hidden entries included; the source is gone and everything apart from both is as it was. |
| DiffSync.MoveExactly | internal/parse/diff_sync.go:48-57 | Without a target the sync succeeds if and only if there is a source, the target is not inside it, and no file stands on the way to the target. |
| SearchQueue.PriorityQueue.Push | internal/retriever/retriever.go:552-556 | Sifting up restores the heap order; the queue gains the item and loses none. |
| SearchQueue.PriorityQueue.Pop | internal/retriever/retriever.go:545-565 | Removes one item, none in the queue had a greater score, the other items stay, and sifting down restores the heap order. |
| SearchQueue.RootIsMax | internal/retriever/retriever.go:546 | In a heap by this comparison no item beats the root. |
| SearchSteps.ReorderKeeps | internal/retriever/retriever.go:545-565 | What the search promises does not depend on the order in which the heap holds its items. |
| Search.Seed | internal/retriever/retriever.go:223-231 | Each seed URI ends with the first of its best seeds; seeds without a URI are ignored. |
| Search.ChildScores | internal/retriever/retriever.go:269-283 | The scores of the reranker count only when there is one for every child. |
| Search.OfferChild | internal/retriever/retriever.go:285-317 | One child: offered the mean of its own and a positive parent score, else its own; collected if that beats the threshold and what is collected for its URI; queued with it if it beats the threshold, is not visited, and has a level other than 2. All promises of the search are kept. |
| Search.Expand | internal/retriever/retriever.go:285-317 | After an expansion every child has been offered, and no collected score has decreased. |
| Search.RecursiveSearch | internal/retriever/retriever.go:211-333 | Ends for every oracle over a finite URI universe, expands no URI twice; whatever is expanded or collected has its reason, when the queue runs out nothing is missing, and it leaves a queue only when the last four top-`limit` sets were full and equal (the empty set standing before the first), which they had never been before. |
| SearchLaws.SearchGrounded | internal/retriever/retriever.go:223-317 | What is expanded is a start with its score, or a child with a level other than 2, offered its score above the threshold by something expanded; what is collected is a seed, or a child so offered with exactly the fields of the store. |
| SearchLaws.ExhaustedIsClosed | internal/retriever/retriever.go:243-317 | A search that ran out of candidates has expanded every start and every child with a level other than 2 whose offer, from any expanded URI, beats the threshold, and has collected for each URI at least every seed and every such offer. |
| Search.StableTold | internal/retriever/retriever.go:319-330 | The search ends early only after four full and equal top sets in a row, the first compared with the empty set, and such a row never came before the end. |
| SearchModel.BestOffer | internal/retriever/retriever.go:285-311 | Each collected score is at least every seed and every offer for its URI, and is itself a seed or the score at the end of a trail of expanded URIs. |
| SearchModel.CollectedUnit | internal/retriever/retriever.go:289-300 | If starts, seeds and raw scores lie in [0, 1], so do the collected scores, and the final ones for a hotness in [0, 1]. |
| Search.TopKURIs | internal/retriever/retriever.go:501-521 | Exactly min(k, collected) URIs, none of them beaten by one left out. |
| Search.SetsEqual | internal/retriever/retriever.go:523-533 | Equality of the two sets. |
| Search.ToMatchedContexts | internal/retriever/retriever.go:335-381 | A descending list of min(limit, collected) distinct entries, each with its fields, level 2 where none is given and four fifths of its score plus one fifth of its hotness, and no entry left out beats one shown. |
| Search.SuffixShown | internal/retriever/retriever.go:481-499 | Levels 0 and 1 are shown as `/.abstract.md` and `/.overview.md` below the URI without its final slashes; an empty URI, one that names such a file, and any other level as they are. |
| Search.SuffixAppendedOnce | internal/retriever/retriever.go:486-499 | A level suffix is never appended twice. |
| WorkQueue.StepKeepsInv | internal/queue/queue.go:70-141 | Every step of producers, workers and the stopping caller keeps each accepted job in exactly one place and the counters exact. |
| WorkQueue.NoJobLost | internal/queue/queue.go:78-141 | At every step accepted = buffered + in hand + completed + failed, `running` counts the busy workers, and no job is in two places. |
| WorkQueue.StopDrains | internal/queue/queue.go:71-76 | When Stop returns the channel is empty, nothing runs, and every accepted job was processed exactly once. |
| WorkQueue.CountersCount | internal/queue/queue.go:125-141 | Over any run `completed` is the number of jobs finished with success and `failed` that of jobs finished without. |
| WorkQueue.FirstInFirstOut | internal/queue/queue.go:78-122 | The jobs taken so far are the first ones accepted, and the buffer holds all later ones in order. |
| WorkQueue.NextInOrder | internal/queue/queue.go:78-122 | A worker takes the oldest job; an enqueue is refused exactly when the buffer is full. |
| WorkQueue.WorkShrinks | internal/queue/queue.go:105-141 | Every step but an enqueue lowers a bound on the remaining steps. |
| WorkQueue.StopNeverStuck | internal/queue/queue.go:71-122 | From the call of Stop until its return some step is always possible. |
| Ranking.GainAtMost | internal/eval/eval.go:154-159 | Rearrangement: the gain of h hits is at most the first h discounts, and equal only when the hits come first. |
| Ranking.HitsAreDistinct | internal/eval/eval.go:152-159 | Pigeonhole: without duplicates the hits are distinct relevant documents. |
| Ranking.NdcgBounds | internal/eval/eval.go:143-174 | For a result list without duplicates NDCG lies in [0, 1], and is 1 if and only if the first min(k, number expected) results exist and are all relevant. |
| Ranking.NdcgWithin | internal/eval/eval.go:143-174 | The same for any list with at most min(k, number expected) hits, repetitions counted. |
| Ranking.AtMostOneExactly | internal/eval/eval.go:154-173 | NDCG is at most 1 under every discount if and only if the results considered hold at most min(k, number expected) hits, repetitions counted. |
| Ranking.DuplicatesExceedOne | internal/eval/eval.go:154-173 | The same relevant document twice, of one expected, gives more than 1 under every discount. |
| Ranking.NdcgTold | internal/eval/eval.go:143-174 | NDCG is the sum of the discounts at the positions of the relevant documents among the first k, over the sum of the first min(k, number expected) discounts, and 0 for k of 0 or less or nothing expected. |
| Ranking.SingleDocument | internal/eval/eval.go:143-174 | For one expected document found at one position it is the discount there over the first one. |
| Ranking.NdcgAtK | internal/eval/eval.go:143-174 | The loops compute the ratio of the two sums, and 0 for an empty query. |
| Ranking.PrecisionAtK | internal/eval/eval.go:92-109 | Precision times the number of results considered is the number of relevant ones. |
| Ranking.RecallAtK | internal/eval/eval.go:112-129 | Recall times the number expected is the number of them found. |
| Ranking.SameHits | internal/eval/eval.go:92-129 | Without duplicates precision and recall count the same hits. |
| ApiKeys.KeyPrefix | internal/server/apikeys.go:371-376 | The first 12 characters of the key, or all of a shorter one. |
| ApiKeys.IndexUnique | internal/server/apikeys.go:351-363 | There is only one right index, so a rebuild computes what is there. |
| ApiKeys.StepValidExactly | internal/server/apikeys.go:127-333 | A successful operation keeps the index equal to what a rebuild would compute if and only if the key it issues, if any, has a prefix that no other user has; the own old prefix may come again. |
| ApiKeys.StepKeepsValid | internal/server/apikeys.go:127-333 | So operations that issue no such prefix, refused ones included, keep the index right. |
| ApiKeys.RunValid | internal/server/apikeys.go:127-333 | So after any sequence of such operations. |
| ApiKeys.LookupIsScan | internal/server/apikeys.go:111-124 | The lookup by prefix answers exactly as a scan of all users by hash, the hash being injective. |
| ApiKeys.OldKeyRejected | internal/server/apikeys.go:261-333 | After a user or the account is deleted or the user gets another key, the old key opens nothing, whatever prefix a new one has. |
| ApiKeys.CollisionLocksOut | internal/server/apikeys.go:127-333 | When an account, a user or a new key is created, any other user still gets in with the old key if and only if the new key has another prefix; a scan would find the key either way. |
| ApiKeyLaws.IssuedKeyOpens | internal/server/apikeys.go:127-333 | The key that an operation issues opens the account of its user at once: as administrator for a new account, as administrator or user as asked for a new user, in the role the user had for a new key. |
| ApiKeyLaws.RoleTakesEffect | internal/server/apikeys.go:210-227 | After a change of role the key of the user opens with the role that was named. |
| ApiKeyLaws.OthersUnaffected | internal/server/apikeys.go:127-333 | The key of any other user opens exactly what it did, unless the account is deleted or a key with its prefix is issued. |
| ApiKeyLaws.WhoIsThere | internal/server/apikeys.go:127-333 | Which accounts and users there are after each operation, and when an operation changes nothing. |
| ApiKeys.APIKeyManager.Authenticate | internal/server/apikeys.go:98-124 | Nothing for an empty key, the root entry for the root key, otherwise the lookup. |
| ApiKeys.APIKeyManager.CreateAccount | internal/server/apikeys.go:127-164 | Performs its step and returns the key; refused exactly when the account exists. |
| ApiKeys.APIKeyManager.RegisterUser | internal/server/apikeys.go:167-207 | Performs its step and returns the key; refused exactly without the account or when the user exists. |
| ApiKeys.APIKeyManager.SetUserRole | internal/server/apikeys.go:210-227 | Performs its step and rebuilds the index; refused exactly when there is no such user. |
| ApiKeys.APIKeyManager.DeleteUser | internal/server/apikeys.go:262-279 | Performs its step: user and index entry are gone. |
| ApiKeys.APIKeyManager.DeleteAccount | internal/server/apikeys.go:282-297 | Performs its step: all users of the account and their index entries are gone. |
| ApiKeys.APIKeyManager.RegenerateKey | internal/server/apikeys.go:300-333 | Performs its step: the old prefix leaves the index, the new one enters it. |
| ApiKeys.APIKeyManager.RebuildIndex | internal/server/apikeys.go:351-363 | In whatever order users come, the result indexes every user under its prefix. |
| NoteSync.Syncer.SyncNote | internal/fns/syncer.go:123-160 | One listed path: skipped, failed, added or updated; the hash is recorded under the listed path, the content written under the path of the note, both or neither, and one counter goes up. |
| NoteSync.Syncer.DeleteUnseen | internal/fns/syncer.go:168-178 | Exactly the tracked paths that were not listed are forgotten; their files go when they can be removed. |
| NoteSync.Syncer.Sync | internal/fns/syncer.go:105-183 | Handles exactly the paths on the pages up to the first with page * 100 at least the reported total, then deletes; a page that cannot be listed ends it with what was done so far. Hashes and counts for any server, files for one that returns each note under the path asked for. |
| NoteSync.OutcomesPartition | internal/fns/syncer.go:123-160 | Added + updated + skipped + errors = number of distinct paths seen. |
| NoteLaws.CountsTold | internal/fns/syncer.go:123-178 | Of the listed paths, notes that differ from a known non-empty hash and can be written count as updated, those without such a hash as added, those with an equal one as skipped, those that cannot be fetched or written as errors; tracked paths not listed count as deleted. |
| NoteLaws.HashesTold | internal/fns/syncer.go:129-178 | A written note has its new hash, any other listed path what it had, and paths not listed none. |
| NoteLaws.FilesTold | internal/fns/syncer.go:145-175 | A written note has its content, the file of a tracked path not listed is gone if it can be removed, and any other file is as it was. |
| NoteLaws.PagesTold | internal/fns/syncer.go:112-120 | The paths seen are those on the pages up to the last one fetched. |
| NoteSync.SyncKeepsMirror | internal/fns/syncer.go:123-178 | Complete or broken off, with failures or without, each recorded hash is that of the file the target holds. |
| NoteSync.RunKeepsMirror | internal/fns/syncer.go:105-183 | So over any sequence of syncs. |
| NoteSync.SyncedIsMirror | internal/fns/syncer.go:105-183 | After a sync without errors the tracked paths are the listed ones and the target holds the remote contents. |
| NoteSync.RepeatSkips | internal/fns/syncer.go:140-143 | A repeat with nothing changed and no empty hash skips every note and changes nothing. |
| JsonText.MetaBack | internal/memory/updater.go:186-191 | The printed field object reads back exactly: strings with all escapes, decimal numbers with fractions and exponents, booleans, null, lists and objects nested to any depth. |
| Numbers.NumberBack | internal/memory/updater.go:190 | Every decimal number reads back from what the encoder prints for it, with the point anywhere or with an exponent. |
| Numbers.SameAmount | internal/memory/mergeop/mergeop.go:189-205 | Two numbers that stand for the same amount are the same. |
| JsonText.MetaNoGreater | internal/memory/updater.go:190-191 | The printed object holds no `>`, so never the mark that closes the header. |
| MemoryFields.EndAfterMarker | internal/memory/updater.go:200-205 | The closing mark cannot begin inside the opening one, so the slice between them is well defined. |
| MemoryFields.RoundTrip | internal/memory/updater.go:186-211 | With at least one field, reading back what was written gives the content and the fields, for arbitrary content. |
| MemoryFields.EmptyRoundTrip | internal/memory/updater.go:187-203 | Without fields, exactly when the content does not look like a complete header itself. |
| MemoryFields.ReadsBackExactly | internal/memory/updater.go:186-211 | A memory reads back as written if and only if it has a field or its content does not look like a header. |
| MemoryFields.SumIsTotal | internal/memory/mergeop/mergeop.go:111-129 | A sum field that starts as a number, or as text that spells one, is that number plus the exact total of its numeric patches. |
| MemoryFields.SumExactly | internal/memory/mergeop/mergeop.go:111-129 | For any start and patches: when the first value that is set is a number, the field is the exact total; otherwise it never leaves that value, an empty string included. |
| MemoryFields.SumFromNothing | internal/memory/mergeop/mergeop.go:111-117 | An absent sum field with a numeric first patch is the total of its numeric patches. |
| Numbers.AddExact | internal/memory/mergeop/mergeop.go:120-126 | The sum of two decimal numbers stands for the sum of their amounts. |
| Numbers.PrintedSpells | internal/memory/mergeop/mergeop.go:199-201 | Text that is printed for a number, by the encoder or by the default format, spells that number when it is patched as a string. |
| MemoryFields.ImmutableKeeps | internal/memory/mergeop/mergeop.go:97-102 | An immutable field that has a value keeps it through any patches. |
| MemoryFields.ImmutableTakesFirst | internal/memory/mergeop/mergeop.go:97-102 | An empty immutable field ends with its first non-empty patch. |
| MemoryFields.TextFollowsMemory | internal/memory/updater.go:134-167 | Over any edits, the text reads back as the merged memory after each of them if and only if every memory on the way is one that reads back. |
| MemoryFields.FieldsOverEdits | internal/memory/updater.go:134-167 | So in the file itself, for fields present at the start and fields first set by an edit: sum fields hold their exact totals, immutable fields their first value that is not empty. |
| MemoryFields.FieldsStayReadable | internal/memory/updater.go:134-167 | A file with fields is readable through any edits. |
| MemoryFields.IndexExactly | internal/memory/mergeop/mergeop.go:159-161 | The position found is that of the first occurrence, and none is found exactly when there is none. |
| MemoryFields.BlockReplacesFirst | internal/memory/mergeop/mergeop.go:159-161 | A block replaces the first occurrence of its search text and leaves what is before and after. |
| MemoryFields.BlockMissesExactly | internal/memory/mergeop/mergeop.go:159-161 | A block changes nothing if and only if its search text does not occur. |
| MemoryFields.BlockUndone | internal/memory/mergeop/mergeop.go:145-164 | The opposite block restores the text when the new text does not occur before the place of the replacement. |
| MemoryFields.ApplyStrPatch | internal/memory/mergeop/mergeop.go:145-164 | The loop applies the blocks in order, each to the result of the one before; a block without search text adds a line. |
| MemoryFields.ParseStrPatch | internal/memory/mergeop/mergeop.go:166-187 | One block for each object in the list, its texts under `search` and `replace` read as empty where they are missing, other items passed over. |
| MemoryFields.PatchApply | internal/memory/mergeop/mergeop.go:58-88 | A string field takes blocks as edits, keeps its value for an empty patch, and takes the default printed form of anything else (a million is `1e+06`); other fields take any patch. |
| MemoryLaws.BlockReplaces | internal/memory/mergeop/mergeop.go:68-76 | For a text `before + x + after` in which x first occurs behind `before`, a patch object whose blocks are one object with `search` x and `replace` y gives `before + y + after`. |
| MemoryLaws.PatchesJoin | internal/memory/mergeop/mergeop.go:145-187 | The blocks of two lists joined are the one patch after the other. |
| MemoryLaws.NoBlocks | internal/memory/mergeop/mergeop.go:166-178 | An empty list of blocks changes nothing, and an item that is no object changes nothing. |
| MemoryLaws.BlockMisses | internal/memory/mergeop/mergeop.go:159-161 | A block whose search text does not occur changes nothing. |
| MemoryLaws.BlockAdds | internal/memory/mergeop/mergeop.go:152-158 | A block without search text appends its replacement on a new line, or is the text when there was none. |
| MemoryLaws.OtherPatches | internal/memory/mergeop/mergeop.go:58-88 | Null and the empty text keep a text, another text replaces it, booleans, numbers, lists and objects without a list of blocks replace it by what they print as; a field that is no text takes every patch. |
| MemoryLaws.PrintedList | internal/memory/mergeop/mergeop.go:78-87 | Lists print in brackets with single spaces. |
| MemoryLaws.PrintedObject | internal/memory/mergeop/mergeop.go:78-87 | Objects print as maps in byte order of the names. |
| MemoryLaws.PrintedSmall | internal/memory/mergeop/mergeop.go:78-87 | Maps with no member or one. |
| MemoryLaws.FieldEdited | internal/memory/updater.go:134-167 | The same in the file: a text field edited by one block reads back changed, and every other field and the content as they were. |
| MemoryLaws.ContentEdited | internal/memory/updater.go:134-167 | And for the content, whether the schema lists it as a text or not at all: the file is its header, if it has fields, and the edited content. |
| MemoryLaws.SumTold | internal/memory/mergeop/mergeop.go:111-129 | Numbers and texts that spell one add up exactly; a sum field without a value takes the patch, and keeps its value for an empty patch or when one of the two does not count. |
| MemoryLaws.FieldsEdited | internal/memory/updater.go:142-163 | Every field after an edit: merged by the operator of the schema where schema and edit name it, otherwise as it was. |
| MemoryLaws.ContentKept | internal/memory/updater.go:142-163 | The content is untouched unless the edit names it, a text patch where the schema does not list it, and kept where it is immutable and not empty. |
| MemoryLaws.WrittenReadsBack | internal/memory/updater.go:111-132 | A new file reads back as the content with exactly the given fields that the schema lists, or all but the content without a registry or a type. |
| MemoryLaws.FileText | internal/memory/updater.go:186-192 | The file is `<!-- MEMORY_FIELDS`, the fields, `-->`, a line end and the content, or the content alone. |
| MemoryLaws.HeaderRead | internal/memory/updater.go:194-211 | A header is read whatever white space stands around its object, one line end behind it is dropped, and a header that is no object gives no fields. |
| MemoryLaws.TextRead | internal/memory/updater.go:194-211 | Such a text reads as its fields and content; a text that does not begin so, or has no closing mark, is all content. |
| JsonLaws.CharWritten | internal/memory/updater.go:190 | Every character as the encoder writes it: the short escapes, codes in four lower-case hexadecimal digits for other control characters, for `<`, `>`, `&` and the two line separators, and itself otherwise. |
| JsonLaws.AtomsWritten | internal/memory/updater.go:190 | Null, true, false, numbers and strings as the encoder writes them. |
| JsonLaws.StringWritten | internal/memory/updater.go:190 | Strings stand in quotes, character by character. |
| JsonLaws.ListWritten | internal/memory/updater.go:190 | Lists stand in brackets with commas and no spaces. |
| JsonLaws.ObjectWritten | internal/memory/updater.go:190 | Objects stand in braces, the members in byte order of their names. |
| JsonLaws.SmallObjectWritten | internal/memory/updater.go:190 | Objects with no member or one. |
| NumberLaws.DigitsRead | internal/memory/mergeop/mergeop.go:199-201 | A digit means itself, and each further digit ten times what stands before it plus itself. |
| NumberLaws.PointAdds | internal/memory/mergeop/mergeop.go:199-201 | A point behind the digits adds nothing. |
| NumberLaws.PlacesRead | internal/memory/mergeop/mergeop.go:199-201 | Behind the point each digit counts a tenth of the place before it. |
| NumberLaws.ExponentRead | internal/memory/mergeop/mergeop.go:199-201 | An exponent, with a sign or without, moves the point by its value. |
| NumberLaws.SignRead | internal/memory/mergeop/mergeop.go:199-201 | A minus sign negates, a plus sign does nothing. |
| NumberLaws.JsonForm | internal/memory/updater.go:190 | The encoder prints an exponent exactly for amounts below 1e-6 and from 1e21 on, zero excepted. |
| NumberLaws.DefaultForm | internal/memory/mergeop/mergeop.go:78-87 | The default format prints one exactly below 1e-4 and from a million on. |
| MemoryFields.MemoryUpdater.ApplyWrite | internal/memory/updater.go:111-132 | Writes the content with exactly the given fields that the schema knows, or, without a registry or a type, with all of them but the content. |
| MemoryFields.MemoryUpdater.ApplyEdit | internal/memory/updater.go:134-167 | Reads, merges and writes back; a file that does not exist is written instead. |
| MemoryFields.MemoryUpdater.ApplyEditOverview | internal/memory/updater.go:169-179 | Edits the whole text as one string field; nothing happens without an overview among the fields. |
| MemoryFields.MergeFields | internal/memory/updater.go:142-163 | In whatever order the fields come, the result is the merge of each patched field. |
| MemoryFields.MemoryUpdater.SerializeWithMetadata | internal/memory/updater.go:186-192 | The header only when there are fields. |

## Left out

- DagBuild.SemanticDagExecutor.Execute: directory URIs are distinct and not empty, as a listing of a tree gives them; with a repeated URI the graph is no tree.
- LockTheorems.AllOrNothing: a refused batch does lose entries the handle already held among the paths tried; `LockRefusals.MayLoseExactly` says for which states and batches.
- DiffSync.SyncTopDownRecursive: an existing target is a directory, and neither source nor target contains the other; a target that is a file, and operations of the disk that fail half-way, are not modelled.
- DiffSync.SyncDir: the target is a directory; the recursion enters only directories that both sides have.
- Search.RecursiveSearch: needs a finite set of URIs that the searches never leave; with endlessly many new URIs the loop need not end.
- NoteSync.Syncer.Sync: the totals reported by the server are bounded; otherwise the page loop need not end.
- NoteSync.Syncer.SyncNote: a note whose own path differs from the listed one is written under its own path, as in the code; the mirror laws are about servers that return the note asked for.
- JsonText.MetaBack: numbers are exact decimals; rounding to binary floating point, its limits, and the sign of zero are left out.
- MemoryFields.SumIsTotal: the spellings `inf`, `nan`, hexadecimal ones and those beyond the range of floating point; a sum that becomes infinite cannot be encoded, and the code then writes a header without fields.
- MemoryFields.MemoryUpdater.ApplyEdit: an existing file is edited only with a registry; without one the code follows a nil pointer. A header that reads `null`, which leaves the code with a map it cannot add to, counts as having no fields.
- DAG executor: the summarize callback is a function of the URI; its errors and those of `writeContent` are only logged in the code and change nothing that is modelled. Tokens carry the name of their holder and the state carries a history of calls; no step depends on either. The activation for the parent is the last thing a child's activation does, so a thread moves on to it instead of nesting.
- DAG executor: `TotalNodes`, which is set once and never changed.
- Locks: the redo log, `Stats`, `ActiveHandles`, `LockStatus`, `IsLocked` and the ticker of the cleanup loop. Fresh handle names stand for UUIDs. Stopping twice, which panics in Go, is not modelled. Empty paths, on which the ancestor test panics, are excluded by the type of paths.
- Filters: how tokens are spelled and separated, column names that are not identifiers, type affinity in comparisons of different types, and everything SQLite does besides the WHERE condition and binding.
- Path scopes: values that are not text are compared through their rendering, as LIKE does; invalid byte sequences are not modelled.
- Directory sync: access control, symbolic links, file modes and modification times.
- Search: embedding, the global search that provides starts and seeds, NaN and infinite scores, and rounding; scores are real numbers. The sifting is that of Go's `container/heap`; the `index` that queue items record for themselves is never read and left out. The hotness of a context is a given number.
- Embedding queue: enqueuing after Stop has begun, which may panic in Go, and what a job does. Statistics are the state itself.
- Ranking: the logarithm; any positive strictly decreasing discounts will do, and the exact bound is over all of them. MRR, hit rate and the text heuristics.
- API keys: persistence, key generation and the strength of the hash.
- Note mirroring: the state file, delays, indexing after a sync, and a failing write that damages the file.
- Memory fields: the batch loop around the operations with its lists of results and errors, and the start lines of search/replace blocks, which the code does not read either. The parser accepts the encoder's own layout, without white space between tokens.
- JSON strings: unpaired surrogate escapes, which the encoder never prints, are refused.
- HTTP, MCP, console, LLM and embedding clients, document parsers, the session compressor and the directory watcher: plumbing without a deep property of their own.
