# Verification of a media server's stateful cores

A Dafny model of the parts of the server that keep promises over time: the library scanner and its
snapshots, cursor pagination, the library job scheduler, the probe queue, the media-info directory, the
file-system watcher, library roots, the thumbnail cache and the placeholder rewriter.

Where the server changes state step by step, a class does so here, and each of its methods is proved equal to
a function of the old state; the theorems are about those functions, over all inputs and all runs.
`dafny verify dfyconfig.toml` checks everything.

## How the parts are modelled

**Scanner** (`Leaves`, `LeafMeaning`, `Snapshots`, `Walks`, `Scanner`, `ScanSteps`, `ScanExact`, `ScanTheorems`,
`ScanHistory`, `ScanRoots`, `ScanWatch`, `ScanTree`, `TreeHistory`, `ScanCalls`, `ScanExample`, `SeasonExample`). The tables of one library are
maps from paths to rows, given names and stamps. A disk maps paths to files, and reading a file's text and its
metadata gives a fixed result per file. Paths are cleaned absolute byte strings and ids are their paths. A scan
carries a budget of database calls that still succeed, so every possible point of failure is some budget; when it is
spent the open transaction is lost. `Scan` is the whole function with its two walks, the skip test, the 500-row
batches, the series and season rows and the final prune; the class `LibraryIndex` does it in place. `ScanHistory`
takes the scan apart into events, so that edits, renames and deletions may fall anywhere, also between two files of
one scan and while a batch is open (a rename or a deletion waits only for a transaction that has written its row), and `ScanRoots` adds changes of the library's directories between scans.

The question is whether an incremental scan leaves the rows a full scan would. Every history is allowed; the state
keeps track of two sets. A row is *dirty* when a scan has written it and no commit has confirmed it. A row is *lost*
when it was dirty and an edit took one of its inputs back to the state on record while the file itself is there, or
when the second walk missed its file and the file is back as recorded at the end of the scan; a later completed scan
that reads the file, or the row's deletion, ends that.

* After any history the incremental scan gives the right row to every file whose row is not lost, whatever happened
  to the others. It is exact, and equal to a full scan, if and only if each lost row that it skips happens to be right
  (`FastScanAfterAnyHistory`, `FastScanAcrossRootChanges`). A full scan is always exact (`FullScanExact`).
* Deleting a film never loses its row, and without failed or scoped scans in between no edit does
  (`ExactStaysTrusted`). A history without such edits and without missed files loses nothing, and then the two scans
  agree (`CalmFastScanEqualsFull`). As long as no file gets a stamp again that is on record, only one kind of edit can
  lose a row: taking away a sidecar that no snapshot has recorded (`RevertsMeaning`, `CalmEditIff`).
* A successful scoped scan makes the rows exact again when its scopes hold every changed .strm file and the directory
  of every changed sidecar (`ScopedScanCatchesUp`); the watcher's targets and scopes do (`WatchedScanCatchesUp`).
* Lost rows are real, and not a matter of clocks, because a record may be of an *absent* file. A sidecar appears, a
  full scan reads it, commits a batch and fails before the snapshot is written; the sidecar is removed again. The
  snapshot never knew it, so the next incremental scan finds nothing changed and keeps the row with the removed
  sidecar's title. `FastAndSlowDisagree` is that run with one film, `FailedScanThenRevert` the run for any library;
  `IncrementalExactIff` states the condition without any history.
* `SkipTestExact` says what the skip test decides. Reading a missing map key gives the zero stamp, so a
  new file whose size and time are both zero counts as unchanged; the scan theorems assume there is none.

The prune at the end takes empty seasons away and then empty series, once each. That leaves no empty folder if and
only if every season that still has a child has one that is not itself an empty season (`PruneLeavesNoEmptyFolder`).
It fails when a directory is the series of one file and the season of another; `NestedSeasonsStay` gets there in two
scans. `TreeAfterAnyHistory` carries the tree of rows through whole histories. Deletions have to take folders with
their children, and must not take the folder that a running scan stands in: `DeletedSeriesOrphans` shows that a file saved after
that hangs below a row that is gone.

**Pagination** (`SortKeys`, `OrderMeaning`, `Pages`, `PageServer`, `PageTheorems`, `PageRequests`, `Versions`, `VersionMeaning`). The catalog is a sequence of
rows with unique ids. A query fixes a condition, an order and whether totals are wanted. A token is a record that
either was signed or was not; signing, encoding and digests are injective. Times are nanoseconds for the clock
and seconds in tokens, as in the code, so expiry is exact at the boundary. `Walk` reads one page per catalog, and
the catalog may change between pages; `Chain` reads one catalog to the end; `Follow` sends each page's cursor back
as a request of its own. Merging within folders joins key, library and folder by colons; `NamesCollide` shows two different films
that then fall into one group.

**Scheduler** (`LibraryQueue`, `QueueRuns`). Waiting on the ready channel is the job being pending; closing it is
the job joining `live`. Limits are arguments of each step, because the settings can change between any two.
`FairRun` is an infinite run in which running jobs end.

**Probe queue and media-info directory** (`ProbeQueue`, `MediaStore`). A run of the queue may interleave requests,
ends, timers and setting changes. `MediaStore` separates the name of a directory from the place it leads to, and
leaves open what the two listings of the old directory return: the code lists with a pattern built from the
directory's name and ignores errors, so a listing may miss files and may name files of other directories.
`MoveKeepsIff` states when the records survive an uninterrupted move, `MoveIsSafeIff` when they survive an interruption
at any point, and `RecordSurvivesIff` when a record is left anywhere at all. `ListedIsMoved` puts it plainly for listings
of the old directory: a record is moved if and only if the first listing names it or an equal copy was there. An
unreadable first listing loses records for good (`UnreadableListingLoses`), a directory named `[x]` leaves them
behind (`PatternListsNothing`), and one named `*` deletes the copies as well (`PatternListsNeighbours`). The code also
compares names and not places; moving between two names of one place deletes the records it lists (`OnePlaceLoses`).

**Watcher** (`Watcher`, `WatcherRuns`, `WatcherSteps`). The event loop with its maps, one step per channel case. After a watcher error a
library is due for a whole scan, but one more event before the next tick replaces it by a scan of that event's target
only; `ErrorThenEvent` gives the condition under which an earlier change is still covered.

**Smaller cores**: `LibraryPaths` (roots as an antichain), `Thumbnails` (byte accounting), `Bind` (placeholders).
`Basics` and `Paths` hold shared vocabulary.

## Model

| member | source | states |
|---|---|---|
| ScanHistory.FastScanAfterAnyHistory | scanner.go:72-351 | after any history from an empty index, a successful incremental scan of a still disk gives the right row to every file whose row is not lost; it has the leaf rows of a full scan if and only if each lost row it skips is right |
| ScanRoots.FastScanAcrossRootChanges | scanner.go:72-351 | the same when directories of the library were added, replaced and removed between the scans |
| ScanRoots.RootsKeep | library_paths.go:107-131 | such a change, with the rows it deletes, keeps the invariant for the new configuration |
| ScanHistory.CalmFastScanEqualsFull | scanner.go:259-266 | after a history whose edits take no input of an unconfirmed row's file back to the record and whose second walks miss no file, the incremental scan is exact and equals the full one |
| ScanHistory.CalmHistoryLosesNothing | scanner.go:149-182 | because such a history loses no row |
| ScanHistory.RevertsMeaning | snapshot.go:39-62 | when no edited file has the stamp on record, an edit takes a file back to the record if and only if it takes away a sidecar of it that is not on record |
| ScanHistory.CalmEditIff | snapshot.go:39-62 | so such an edit is harmless if and only if it takes no unrecorded sidecar from the file of an unconfirmed row |
| ScanHistory.RunKeeps | scanner.go:72-351 | every state of every history keeps the invariant tying rows, open transaction, snapshot and disk, lost rows aside |
| ScanHistory.VisitKeeps | scanner.go:233-333 | one file of the second walk, skipped, written, failed or ending a batch, keeps it, also when the disk changed since the first walk |
| ScanHistory.FinishKeeps | scanner.go:337-349 | the last flush, the final transaction and a failure in either keep it, also when the second walk missed files; rows that were read or rightly skipped become clean |
| ScanHistory.EditKeeps | scanner.go:149-182 | any edit at any moment keeps it; only rows of present files that it takes back to the record are lost |
| ScanHistory.RenameKeeps | media_manage.go:33-52 | giving a row a name of the user's keeps it, also while a scan has a transaction open that has not written that row |
| ScanHistory.RemoveKeeps | media_manage.go:153-168 | deleting rows, outside a scan or during one, also with a transaction open that has not written them, keeps it |
| ScanHistory.CommitFirm | snapshot.go:113-128 | a row that is not lost and was read or rightly skipped is right on every disk the new record describes |
| ScanTheorems.IncrementalEqualsFull | scanner.go:259-266 | from a trusted state the fast scan and the slow one end with the same leaf rows, seen aside, and the same snapshot |
| ScanTheorems.TrustedScanExact | scanner.go:149-182 | from a trusted state any successful whole-library scan of a still disk commits exactly the rows and stamps of that disk |
| ScanTheorems.FullScanExact | scanner.go:149-182 | a successful full scan of a still disk is exact whatever the tables held |
| ScanTheorems.ExactStaysTrusted | snapshot.go:39-62 | the state right after a successful scan is trusted for every later disk, whatever was edited |
| ScanTheorems.IncrementalExactIff | scanner.go:259-266 | without any trust, an incremental scan is exact if and only if each row whose inputs are as recorded is the row of the recorded disk |
| ScanTheorems.FailedScanThenRevert | scanner.go:187-231 | the run that defeats the incremental scan: a sidecar appears, a scan fails after its last batch, the sidecar goes |
| ScanExample.FastAndSlowDisagree | scanner.go:187-231 | that run in numbers: four scans of a library with one film, after which a successful incremental scan and a successful full one leave different names |
| ScanTheorems.VanishedSidecarStays | scanner.go:259-266 | a row with the title of a sidecar no snapshot recorded survives the sidecar's removal |
| ScanTheorems.UnfinishedScanCommits | scanner.go:337-349 | a scan failing between its last flush and the commit leaves new rows for every file and the old snapshot |
| ScanTheorems.NfoNamesRow | scanner.go:27-52 | a readable NFO beside a file gives its row the NFO's title |
| ScanExact.StillScan | scanner.go:72-351 | over a still disk a scan, whole or scoped, records the disk in its scopes, leaves no row there without a file, and row by row leaves the right one if and only if it did not skip a wrong one |
| ScanExact.SkipTestMeaning | scanner.go:259-266 | with true snapshots and no zero stamps, a file is skipped if and only if no input of its row changed its stamp |
| Snapshots.SkipTestExact | snapshot.go:39-62 | for any two snapshots, a file is skipped if and only if neither it nor a sidecar above it changed, new files with the zero stamp aside |
| Snapshots.ChangedSidecars | snapshot.go:39-54 | the directories holding a sidecar that is new, changed or gone |
| Snapshots.DependencyChangedLoop | snapshot.go:55-62 | the loop over parent directories computes the recursive test |
| Snapshots.AnyAboveMeaning | snapshot.go:55-62 | that test holds if and only if some directory of the set, other than the root, is at or above the path |
| Snapshots.WithinScanScopes | snapshot.go:159-166 | true exactly when some scope is the path or lies above it |
| Leaves.LeafRowInputs | scanner.go:267-333 | a leaf row is decided by the file and the sidecars of its ancestor directories up to the root: equal inputs give equal rows |
| Leaves.InputsVisible | scanner.go:149-165 | whatever such an input is, the walk that reaches the file also reaches it, so it is in the snapshot |
| Leaves.ConsultedAreSiblings | scanner.go:27-59 | every file consulted for metadata or a poster is a sidecar beside the file |
| Leaves.FirstNfoWins | scanner.go:30-52 | metadata comes from the first candidate that decodes; absent or broken ones do not stop the search |
| Leaves.SeriesFromNearest | snapshot.go:133-145 | the series is given by the nearest directory below the root that is named as a season or holds a tvshow.nfo, and by none if there is none |
| LeafMeaning.EpisodeTagIs | scanner.go:25 | the numbers found in a name are those of its leftmost tag: S, one to three digits for the season, E, up to four for the episode; none without one |
| LeafMeaning.SeasonNumberIs | snapshot.go:131 | a directory's name gives a season number exactly when it is the word season, separators and digits to the end, and the number is that of the digits |
| LeafMeaning.FirstUrlIs | scanner.go:324-330 | the address is the first line that is neither empty nor a comment, or none |
| LeafMeaning.LeafRowMeaning | scanner.go:245-333 | every column of a Movie or Episode row: parent, kind, name, season, episode, address, picture, metadata, stamp |
| LeafMeaning.TaggedLeaf | scanner.go:267-300 | without numbers from an NFO the tag's first number is the row's season, or when it is 0 the season folder's, and the second is its episode |
| LeafMeaning.PlaceMeaning | scanner.go:273-290 | which folder rows a file needs: none at the root or for films, else its series by the nearest mark or the top folder, and its own folder as a season unless it is that series |
| LeafMeaning.SeriesRowMeaning | scanner.go:276-286 | a series row has its folder's metadata, and for want of an own poster that of its seasons |
| LeafMeaning.SeasonRowMeaning | scanner.go:287-305 | a season row has the number of its folder's name, or of the file's tag, unless an NFO gives one, and the poster for that number |
| LeafMeaning.SeasonPosterOrder | snapshot.go:146-158 | the sixteen names tried for a season's poster, in order |
| LeafMeaning.CandidatesFor | scanner.go:28-58 | the names tried for a file's metadata and picture, in order |
| LeafMeaning.FirstPresentIs | scanner.go:53-58 | the picture is the first candidate that exists, or none |
| LeafMeaning.SidecarExtensions | snapshot.go:32-38 | nfo, jpg, jpeg, png and webp files are sidecars, strm files are not |
| Leaves.RootIsUnique | scanner.go:124-128 | a path below a root belongs to that root alone |
| Walks.Walker.BoundedWalk | scanner.go:354-391 | the chunked recursive walk reports what the recursive description reports, and fails exactly when a directory it enters cannot be read |
| Walks.ReportedExact | scanner.go:149-165 | a walk reports a regular file if and only if no hidden directory lies between it and the root |
| Walks.ReportedOnce | scanner.go:354-391 | a walk reports nothing twice and only files of the tree |
| Walks.LocateFiles | scanner.go:128-142 | the files at or below a scope are exactly those of the entry the walk starts from |
| Walks.WalkReports | scanner.go:124-165 | for any scopes, nested or inside hidden directories, a walk reports a file if and only if it meets it from a root, or from a scope below one, with no hidden directory on the way from there |
| Walks.WalkExact | scanner.go:124-146 | over all roots and scopes, a walk of a still disk reports each visible file in scope once and nothing else |
| Walks.WalksGiveStillJob | scanner.go:124-182 | so two walks of a still disk give the scan the inventory and visits that the exactness theorems ask for |
| Scanner.LibraryIndex.SaveRow | scanner.go:187-231 | saving opens a transaction when needed, writes the row, keeps a given name and commits at 500 rows |
| Scanner.LibraryIndex.FlushTx | scanner.go:187-207 | the batch is committed as a whole or lost as a whole |
| Scanner.LibraryIndex.SaveFolderRows | scanner.go:276-308 | series and season rows are written once per run of files, the series first |
| Leaves.FallbackIsFirst | snapshot.go:167-184 | a series without a poster of its own gets that of its first season in name order that has one, or none |
| Scanner.LibraryIndex.VisitFile | scanner.go:233-333 | the skip test, the look-up of the existing row and the rewriting of one file |
| Scanner.LibraryIndex.VisitFiles | scanner.go:233-336 | the second walk, stopped by the first failure |
| Scanner.LibraryIndex.Commit | snapshot.go:63-129 | inventory, guard against an empty walk, prune in order, new snapshot, all or nothing |
| Scanner.LibraryIndex.ScanLibrary | scanner.go:72-351 | the whole scan in place has the outcome and the state of the scan function |
| Scanner.TakeInventory | scanner.go:149-170 | the first walk's map holds the last stamp met for each path |
| ScanSteps.SaveCases | scanner.go:187-231 | a save changes nothing, adds its row to the open transaction, commits the batch with it or loses the batch; nothing else |
| ScanSteps.FoldersAreAbove | scanner.go:276-308 | the folder rows of a file lie strictly above it and at or below the root |
| ScanSteps.RefreshEffect | scanner.go:267-333 | rewriting a file leaves every other leaf row as it was, keeps trust, and if it succeeds leaves the right row |
| ScanCalls.ScanIsRun | scanner.go:72-351 | one call of the scanner over a still disk, in any mode, failing or not, is a legal run of events ending in the same tables, and loses no row |
| ScanCalls.FailedScanKeepsSnapshot | scanner.go:337-349 | a scan that fails leaves snapshot and given names untouched |
| ScanCalls.EmptyWalkRefused | snapshot.go:94-102 | a walk with no .strm file fails and changes no table while rows exist, unless an empty result is allowed |
| ScanCalls.EmptyWalkIff | snapshot.go:94-102 | with calls to spare such a walk commits if and only if an empty result is allowed or there is no row; then no leaf row is left in scope and the record is the walk's |
| ScanCalls.MissingRootRefused | scanner.go:119-123 | a scan whose directories are not all there fails and changes no table |
| ScanCalls.FullScanSucceedsIff | scanner.go:233-349 | a full scan that found a .strm file, with calls to spare, succeeds if and only if its directories are there and every file it visits is still there and readable |
| ScanCalls.VisitSucceedsIff | scanner.go:310-333 | a file stops a full scan if and only if it is gone or cannot be read, and otherwise has a row afterwards |
| ScanCalls.WhatIsReread | scanner.go:259-266 | only an incremental or scoped scan leaves a file alone, and only one that is unchanged and indexed |
| ScanCalls.FoldersWritten | scanner.go:276-305 | series and season rows are written from the disk unless the scan already stands in that folder |
| ScanCalls.InventoryIs | scanner.go:149-170 | the record of a walk holds each path met with the last stamp met for it, and no other |
| ScanCalls.BatchesAreBounded | scanner.go:187-231 | an open transaction holds fewer than 500 rows; the 500th write commits them |
| ScanTree.ScopedFrame | scanner.go:176-182 | a scoped scan, finished or not, on a still or changing disk, touches no leaf row and no snapshot entry outside its scopes |
| ScanWatch.ScopedScanCatchesUp | scanner.go:176-182 | from rows exact for one disk, a successful scoped scan of the next is exact for that one when each changed .strm file and the directory of each changed sidecar lie in a scope |
| ScanWatch.WatchedScanCatchesUp | watcher.go:116-181 | so once every change has been reported, the scan that the watcher launches for its recorded targets makes the rows exact |
| ScanWatch.TargetCovers | watcher.go:116-127 | the target of an event covers the file it is about, and for a sidecar the whole directory |
| ScanWatch.UnvisitedLeaf | scanner.go:267-333 | a successful scan makes no leaf row at a path it does not visit |
| TreeHistory.TreeAfterAnyHistory | scanner.go:187-231 | at every moment of every history in which deletions take folders with their children and not the folders a running scan stands in, each row's parent is the library or a folder row that is there and lies above it |
| TreeHistory.StepKeepsTree | scanner.go:187-231 | every event keeps that, in the committed table and in the open transaction |
| TreeHistory.RemovalLeavesTreeIff | media_manage.go:153-168 | a deletion leaves a tree if and only if it leaves no row whose parent it takes |
| TreeHistory.DeletedSeriesOrphans | scanner.go:276-286 | when the series a running scan stands in is deleted, the next file of that series is saved below a row that is gone |
| ScanTree.ScanKeepsTree | scanner.go:187-231 | wherever a scan stops, each row's parent is the library or a committed folder row above it; if it finishes, no folder is childless and each has a leaf below if and only if every season with a child has one that is not an empty season, for which one role for each directory suffices |
| ScanTree.PruneLeavesNoEmptyFolder | snapshot.go:113-120 | pruning seasons and then series, once each, leaves no empty folder if and only if every season with a child left has one that is not an empty season |
| ScanTree.PrunePopulates | snapshot.go:113-120 | it keeps the tree, and on the same condition leaves a leaf row below every folder |
| SeasonExample.NestedSeasonsStay | snapshot.go:113-120 | two successful scans after which a season is empty: its directory was the series of one file and the season of another |
| SeasonExample.EmptySeasonStays | scanner.go:275-308 | the same for every library with three files so placed |
| LibraryQueue.StartsExactly | library_queue.go:57-73 | a dispatch starts a job if and only if its library is idle, no older job of it is pending, and the older jobs that start leave room |
| LibraryQueue.LibraryJobQueue.DispatchJobs | library_queue.go:51-74 | the in-place index loop starts those jobs and keeps the rest in order |
| LibraryQueue.LibraryJobQueue.Acquire | library_queue.go:75-81 | a new job goes to the end of the list and the queue is dispatched |
| LibraryQueue.LibraryJobQueue.Release | library_queue.go:83-93 | the library becomes idle, its kind's count drops and the queue is dispatched |
| LibraryQueue.DispatchMaximal | library_queue.go:57-73 | afterwards the oldest pending job of each library has its kind at the limit or its library active |
| LibraryQueue.DispatchWithinLimit | library_queue.go:64-72 | no dispatch raises a count above the present limit, even one lowered below what runs |
| LibraryQueue.LibraryOrder | library_queue.go:57-73 | jobs of one library start in arrival order |
| LibraryQueue.Overtaking | library_queue.go:57-73 | a job overtakes an older one of its kind only if that one's library was active or had an older pending job |
| LibraryQueue.JobLimit | library_queue.go:20-32 | between 1 and 64, the stored number whenever that lies in the range, and 2 whenever it is not what is stored |
| QueueRuns.EveryJobStarts | library_queue.go:51-94 | in every fair run with limits of at least 1, however they change, every pending job is started |
| QueueRuns.EveryReachableState | library_queue.go:51-94 | in every state of every run, also when jobs never end, one job per library runs, the active set and the counts are those of the running jobs, and the arrival numbers handed out belong to one job each, in one place |
| QueueRuns.StepsAreCalls | library_queue.go:75-95 | the steps of these runs are the calls of the queue object: Acquire, Release and a dispatch |
| QueueRuns.ReleaseFreesLibrary | library_queue.go:83-93 | after a release the job's library is active if and only if the release itself started another job of it |
| QueueRuns.ArrivalOrder | library_queue.go:57-73 | in every run the jobs of one library start in the order of their arrival |
| QueueRuns.ReleasedForGood | library_queue.go:83-93 | a released job is never pending or running again |
| QueueRuns.StepKeeps | library_queue.go:51-94 | every step keeps that, and keeps the head of the list held back only by a busy library or a full kind |
| QueueRuns.SomethingRuns | library_queue.go:57-73 | whenever a job is pending some job runs |
| QueueRuns.HeadStartsExactly | library_queue.go:51-94 | the head of the list starts at a step if and only if its library is then idle and its kind has room; so the next release of a job of its kind starts an idle head |
| QueueRuns.IdleHeadStep | library_queue.go:57-73 | while an idle library's job heads the list unstarted, no job of its kind is started |
| PageTheorems.ExactlyOnce | pagination.go:144-235 | a finished walk over a catalog that changes between pages lists every row present throughout exactly once |
| PageTheorems.NoRowTwice | pagination.go:176-186 | no walk lists an id twice while sort keys stay |
| PageTheorems.NoRowMissed | pagination.go:209-233 | a row present throughout and beyond the starting cursor is listed |
| PageTheorems.WalkListed | pagination.go:176-233 | rows come in strictly increasing listing order, each from a catalog that was read |
| PageTheorems.ChainIsRest | pagination.go:176-233 | on a fixed catalog the pages of a chain concatenate to the rest of the sorted listing |
| PageTheorems.GoodPage | pagination.go:209-233 | a good token gives the next limit rows; its successor has the rows passed as position and the last row's key as values |
| PageTheorems.StartIndexIsOffset | pagination.go:73-102 | a start index gives OFFSET's page whether or not a cached cursor answers it; it never fails on a position, and on expiry if and only if the cursor runs out between two clock readings at least a second apart |
| PageTheorems.RequestKeepsCache | pagination.go:103-126 | every request keeps the cache good for the later ones |
| PageRequests.CursorHonoured | pagination.go:94-100 | a cursor of this query that has not expired is taken up where it stands; a forged, foreign, expired or misplaced one is refused with its own error |
| PageRequests.BadStartRefused | pagination.go:74-81 | a start index that is no number from 0 up is refused |
| PageRequests.SecondsOf | pagination.go:68 | tokens count in seconds of a clock that counts in nanoseconds |
| PageRequests.PlainRequest | pagination.go:101 | a request without start and cursor begins at the front with a token for a quarter of an hour |
| PageRequests.TotalCounted | pagination.go:150-155 | a wanted total is the number of matching rows, counted with the first page and carried along; an unwanted one is never counted |
| PageRequests.FollowFrom | pagination.go:73-102 | sending each page's cursor back in time makes exactly the walk from token to token |
| PageRequests.FollowedListing | pagination.go:144-235 | on a fixed catalog a client that follows the cursors gets the whole sorted listing |
| PageRequests.FollowedExactlyOnce | pagination.go:144-235 | on a changing one it gets every row that is there throughout exactly once |
| PageServer.Server.SavePage | pagination.go:103-126 | the new entry is stored under its query and position, others are only dropped, never changed, and at most 2048 remain |
| PageServer.Server.PageItems | pagination.go:144-235 | the page, its successor and the cache are those the functions give |
| PageServer.DropExpired | pagination.go:111-116 | exactly the entries whose time has passed are dropped |
| SortKeys.SortTextRoundTrip | pagination.go:127-143 | the database reads back from a cursor value exactly the column it was written from |
| SortKeys.BeforeTotal | pagination.go:162-174 | with the id as tie-break any two rows are strictly ordered, one way |
| SortKeys.BrowseOrder | browsing.go:788-803 | recognised columns in the order asked for, all in one direction, name by default, id last |
| OrderMeaning.KeyMeaning | browsing.go:794-797 | which property of an item each sort key goes by, in either direction and with the id last |
| OrderMeaning.WantedInOrder | browsing.go:794-798 | several keys are taken in the order asked for |
| OrderMeaning.ResumeMeaning | pagination.go:158-161 | the resume order is latest first |
| OrderMeaning.RowLessMeaning | pagination.go:180 | rows are compared by the first column in which they differ |
| OrderMeaning.TextLessMeaning | pagination.go:180 | texts are compared byte by byte, a start before what continues it |
| SortKeys.UniformOrder | browsing.go:788-803 | so the order text is equivalent to its columns and one direction, which is what row comparison needs |
| Pages.CursorIsSuffix | pagination.go:176-186 | the rows after a listed row's key are the rest of the sorted list |
| Versions.VersionKeyMeaning | versions.go:11-18 | two rows share a key if and only if kinds agree and either both carry the same tmdb number, with equal season and positive episode where they apply, or both are untagged films or series with equal positive year and equal name |
| VersionMeaning.TmdbIs | versions.go:14-15 | the number of a path is that of its leftmost tag, with id or without; none without a tag |
| VersionMeaning.PlainNameIs | versions.go:15 | a plain name is the name in lower case without the blanks around it |
| VersionMeaning.GroupMeaning | versions.go:19-27 | which rows are grouped: versions of one thing, versions in one folder of one library, or none; within folders nothing else as long as ids and folders have no colon |
| VersionMeaning.NamesCollide | versions.go:24 | with colons two films of different names, years and folders can be taken for versions of one thing |
| VersionMeaning.ColonsCollide | versions.go:24 | such films exist |
| VersionMeaning.OffLeavesCondition | versions.go:28-32 | without merging a condition is left as it is |
| Versions.MergedListing | versions.go:28-35 | a merged walk lists the smallest-id member of each group that meets the filter, each once, and no group is left out |
| Versions.CursorKeepsRepresentatives | pagination.go:176-191 | the cursor condition outside the choice never changes which member represents a group |
| Versions.CursorInsideWouldRepeat | versions.go:33-34 | inside the choice it would list a group again by another member |
| ProbeQueue.EveryReachableState | media_settings.go:147-226 | in every state reached from the start each job of the map is queued, running or cooling down, one per address; starts are first in first out; the queue holds at most 1000; each done closes once |
| ProbeQueue.NeverOverLimit | media_settings.go:177-190 | with one constant limit no more probes run than it says, in every reachable state |
| ProbeQueue.AskAnswers | media_settings.go:147-176 | which of refusal, cached answer, shared job and new job a request gets, and that a new job waits or runs |
| ProbeQueue.RunKeeps | media_settings.go:147-226 | every run keeps that, and only adds to what was asked for, started and closed |
| ProbeQueue.StepKeeps | media_settings.go:147-226 | every step keeps that and, when it dispatches, leaves the queue empty or the workers at their limit |
| ProbeQueue.FinishKeeps | media_settings.go:207-223 | a worker's end keeps it; the unguarded delete removes its own entry |
| ProbeQueue.TimerKeeps | media_settings.go:213-219 | so does the timer, which removes its own entry |
| ProbeQueue.CoolingIsShared | media_settings.go:163-166 | asking for an address that is queued, running or cooling down gives that job and starts nothing |
| ProbeQueue.ProbeState.DispatchLocked | media_settings.go:177-226 | jobs start from the front while there is room |
| ProbeQueue.ProbeState.FinishJob | media_settings.go:207-223 | the worker's end: one fewer running, the entry gone after a success, and the next jobs started |
| ProbeQueue.ProbeState.TimerFires | media_settings.go:213-219 | the timer removes the entry only while it is that job's |
| ProbeQueue.ProbeState.QueueProbe | media_settings.go:147-176 | refusal, cached answer, shared job or new job, with the state each leaves |
| MediaStore.MoveIsSafe | media_settings.go:103-136 | with different places and listings that move every record, after any prefix of copying, committing and deleting the directory in the setting holds every valid record of the start |
| MediaStore.MoveKeepsIff | media_settings.go:103-136 | an uninterrupted move to another name keeps every record if and only if each arrives, by a copy or as an equal file, and the second listing does not name it in the new place |
| MediaStore.RecordSurvivesIff | media_settings.go:103-136 | a record is left somewhere if and only if it is so moved, or its old place is another and the second listing does not name it there |
| MediaStore.ListedIsMoved | media_settings.go:105-118 | when the listings name files of the old directory only, a record is moved if and only if the first listing names it or an equal copy was there |
| MediaStore.UnreadableListingLoses | media_settings.go:105-134 | an unreadable first listing and a readable second one: the only copy is removed |
| MediaStore.PatternListsNothing | media_settings.go:105-134 | a directory named [x] lists nothing: the setting moves on without the record |
| MediaStore.PatternListsNeighbours | media_settings.go:127-134 | a directory named * lists the new directory as well: the copy is removed too |
| MediaStore.OnePlaceLoses | media_settings.go:127-134 | between two names of one place, a record the second listing names is gone |
| MediaStore.MoveIsSafeIff | media_settings.go:102-136 | with different places the move is safe at every point of interruption if and only if the listings move every record |
| MediaStore.MediaDirectory.ChangeDirectory | media_settings.go:102-136 | the in-place move has the state of the move function at every budget |
| Watcher.ScopesCover | watcher.go:167-179 | every recorded path lies at or below a launched scope |
| Watcher.ScopesUnnested | watcher.go:167-179 | no launched scope lies at or below another |
| Watcher.ScopesUnique | watcher.go:167-179 | the scopes are recorded paths, and the only ones that cover all of them without nesting |
| Watcher.ReduceScopes | watcher.go:167-179 | the two nested loops compute exactly the topmost changed paths |
| Watcher.EventLoop.OnNotice | watcher.go:103-142 | an event is recorded for every root it lies under, and removed directories are no longer watched |
| Watcher.EventLoop.OnTick | watcher.go:156-189 | exactly the due libraries are launched, with their reduced scopes, and forgotten |
| Watcher.EventLoop.OnError | watcher.go:143-151 | every library is due for a scan and what was recorded is forgotten |
| Watcher.EventLoop.OnDone | watcher.go:152-153 | the library may be launched again |
| Watcher.EventLoop.SyncRoots | watcher.go:63-93 | roots are replaced, directories outside them are no longer watched, and switching off forgets everything |
| WatcherRuns.NothingLost | watcher.go:103-189 | between errors and switch-offs every recorded change stays recorded or lies under a launched scope of its library |
| WatcherRuns.LaunchInTime | watcher.go:162-181 | a launched scan is its library's only one and comes no sooner than the delay after the last event |
| WatcherRuns.DueIsLaunched | watcher.go:163-181 | a library whose time has come is launched by the next tick |
| WatcherRuns.EventRecorded | watcher.go:110-127 | an event strictly below a root makes its library pending and records a target that covers the path |
| WatcherRuns.ErrorThenEvent | watcher.go:143-151 | an event after an error turns the whole scan into one of its target; an earlier change is covered if and only if it lies under that target |
| WatcherRuns.EveryReachableState | watcher.go:34-191 | in every state reached from the start a library with recorded changes is pending, and one scan at most runs per library |
| WatcherRuns.StepKeeps | watcher.go:99-191 | every step keeps that |
| WatcherSteps.ListedRootsAreHeard | watcher.go:63-127 | from the start on, an event strictly below a root of the last library list makes its library pending and records a covering target; below no such root it changes neither |
| WatcherSteps.RootsOfRun | watcher.go:63-93 | the roots are always those of the last look at the library list, none while watching is off |
| WatcherSteps.SyncExactly | watcher.go:63-93 | such a look takes over the listed roots, watches exactly the known and new directories below them, and keeps or forgets what is pending |
| WatcherSteps.EventExactly | watcher.go:103-142 | exactly which pending times, changes and watched directories an event changes, the tree of a created directory among them |
| WatcherSteps.TargetIs | watcher.go:116-124 | a .strm file and a directory are targets themselves, any other file stands for its directory |
| WatcherSteps.TickExactly | watcher.go:156-189 | exactly the libraries that are due are launched and forgotten, the others stay; switched off everything is forgotten |
| WatcherSteps.ErrorExactly | watcher.go:143-151 | an error concerns exactly the libraries with a root |
| WatcherSteps.DoneExactly | watcher.go:152-153 | the end of a scan changes nothing but that its library may be launched |
| LibraryPaths.EveryReachableCatalog | library_paths.go:25-150 | after any sequence of creating libraries and adding, replacing and removing directories, all roots of all libraries are apart and every row lies under a root of its library |
| LibraryPaths.FoldersKeep | library_paths.go:25-150 | adding, replacing and removing a root keep all roots of all libraries apart and every row under a root of its library |
| LibraryPaths.CreateKeeps | management_update.go:12-70 | so does creating a library |
| LibraryPaths.OneRoot | library_paths.go:22-24 | a path lies under at most one root of one library |
| LibraryPaths.RootsScannable | library_paths.go:12-24 | a library's roots meet what the scan and walk theorems ask of a configuration, and none is listed twice |
| LibraryPaths.RemovalExact | library_paths.go:115-121 | removing a root deletes exactly the rows at or below it, in any library |
| LibraryPaths.FoldersMeaning | library_paths.go:25-150 | a request is done exactly when it may be, and what the libraries list and which rows go then; otherwise nothing changes |
| LibraryPaths.CreateMeaning | management_update.go:12-70 | a library is created exactly from a name and one to a hundred acceptable directories that do not overlap, and lists them all |
| LibraryPaths.AllowedIs | media_roots.go:24-31 | a path is allowed when it is a media root or starts with one and a slash |
| LibraryPaths.Libraries.LibraryFolders | library_paths.go:25-150 | the three requests in place, with their refusals, among them that nothing is taken away while a scan runs |
| LibraryPaths.Libraries.CreateLibrary | management_update.go:12-70 | the validation loops accept exactly the lists the function accepts |
| Thumbnails.ThumbnailCache.Store | thumbnails.go:144-158 | the new entry is stored, others are unchanged or evicted, size stays the sum of lengths and at most 32 MiB |
| Thumbnails.ThumbnailCache.MakeRoom | thumbnails.go:146-152 | eviction in any order ends and makes enough room |
| Thumbnails.BytesWithout | thumbnails.go:147-151 | whichever entry is taken out, the sum of lengths drops by its own |
| Bind.BindText | database.go:15-38 | the loop equals a scanner in which every quote toggles |
| Bind.DoubledQuote | database.go:22-26 | inside a literal a doubled quote is copied and the literal goes on |
| Bind.MarksReplaced | database.go:29-35 | the text is cut at the unquoted question marks and joined again by $1, $2, … in order |
| Bind.LiteralsPreserved | database.go:21-28 | quoted text is preserved byte for byte |
| Bind.NumberedInOrder | database.go:29-32 | reading the result back, placeholders are numbered from 1 upwards without gaps |
| Bind.UnbindRecoversIff | database.go:15-38 | mapping $k back recovers the text if and only if it has no unquoted $ and no unquoted ? directly before a digit |

## Left out

- Scanner.LibraryIndex.SaveFolderRows: a season directory without any file below it is not seen when a series looks for a poster of its seasons. The theorems on exactness speak of Movie and Episode rows only; season numbers can depend on which episode is read first.
- Case folding is ASCII only; the extensions, the names of season directories and the version key fold Unicode in the original.
- Integers are unbounded; the original reads a season directory's digits and a start index into machine integers, ignoring overflow in the one and refusing it in the other.
- Symbolic links: a linked sidecar is read with the file's metadata but never enters the snapshot, because the walk skips links. An incremental scan therefore does not notice when such a sidecar or its target changes, and its rows can stay wrong; the exactness theorems are about disks whose sidecars are regular files. A scope reached through a link is not modelled either.
- Walks.WalkExact: scopes are unnested and outside hidden directories, as the watcher gives them; by WalkReports a scope inside a hidden directory makes a walk report files that a whole walk does not.
- Walks.WalksGiveStillJob: the same scopes as WalkExact.
- ScanHistory.EditKeeps: rows of present files that an edit takes back to the recorded state are given up as lost; FailedScanThenRevert shows that the code can get them wrong.
- ScanHistory.RenameKeeps: a rename of a row that the open transaction has written waits for that transaction, as the database's row lock makes it.
- ScanHistory.RemoveKeeps: a deletion waits in the same way.
- ScanTree.ScanKeepsTree: no path is at one time a directory and at another a .strm file of the library.
- ScanRoots.RootsKeep: directories change between scans; a directory added while a scan runs, which that scan does not see, is not modelled.
- ScanTree.ScopedFrame: no visited file lies below the place of the row it speaks about, as on any real disk.
- ScanCalls.FailedScanKeepsSnapshot: the clean-up of archives after the commit is not part of the scan here; when it fails, the original reports the scan as failed although rows and snapshot are committed.
- A database call either happens or fails; a commit that takes effect and then reports an error is not modelled.
- Library status, item counts, activity log entries, pausing a scan and the metadata generation counter; they do not change rows or snapshots.
- Cursor encoding, signatures and digests are taken as injective and tokens as short enough for the length limit.
- PageTheorems.NoRowMissed: sort keys of a row do not change during a walk. The last-watched time of the resume order is one more fixed key.
- Paging of people, whose totals count people while rows are pairs of person and name.
- Bind.NumberedInOrder: speaks of texts that can be read back; MarksReplaced is the statement for all texts.
- Probe extraction itself, cancelling of automatic probes, saving one archive file and cleaning up archives of deleted items. Writing a temporary file and renaming it over the target is one step.
- The watcher's operating-system queue and the registration of new directories; the set of watched directories is state, and what an event finds on disk is part of the event.
- Requests, responses, device leases, link caches, the licence client and the scan schedule.
