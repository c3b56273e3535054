# Verification of the EVS gateway

The gateway serves a WebDAV file system on top of EVS, a remote store that offers
upload, download, delete and a rename that refuses an existing target, and nothing
that replaces a file in one step. This project models how the gateway makes
replacement look atomic anyway, and what surrounds that: the request gate, the
caches, local retention, sessions. `dafny verify dfyconfig.toml` checks all of it.

## What is here

| file | models |
|---|---|
| Paths.dfy | the path algebra, on strings as the code has it and on components as the rest uses it |
| Store.dfy | the remote store with its own rename and delete |
| Record.dfy | the write-ahead record, its validation and its recovery names |
| Protocol.dfy | replacement as a machine over durable state, its invariant, and whole runs |
| Recovery.dfy | recovering one record: on any store, and within the protocol |
| Pending.dfy | recovering a whole journal, and replacements side by side |
| Client.dfy | the EVS client: calls under injected faults, and the methods that replace and recover |
| Gate.dfy | the weighted semaphore, recovery before mutation, readers and the file cache, in every interleaving |
| BrowseCache.dfy | the listing cache and its generation counter, in every interleaving |
| Maintenance.dfy | pruning by age and budget, emptied directories, and the retention of failed uploads |
| FileCache.dfy | filling, pinning and opening cached files |
| Writes.dfy | request bodies and write handles, from the first byte to the commit |
| Chunks.dfy | the chunk loop of large uploads |
| Aliases.dfy | display names for device roots |
| Reads.dfy | the lazily downloaded read handle |
| Session.dfy | saving a session against concurrent logins |
| CookieJar.dfy | the cookie jar and its trip through the session file |
| Shutdown.dfy | counting requests so that a shutdown can wait |

The replacement protocol is stated twice. `Protocol` is a state machine whose steps
read only the remote store and the saved record, so a run of it covers every crash,
every lost reply and every mixture of writer and recovery. `Client` is a class whose
methods follow the code call by call; each call draws a fault (not done, reply lost,
process dead before or after, staged bytes garbled) from an arbitrary list. Every
durable state a method passes through is kept in the ghost field `trace`, and the
methods' contracts say that this trace is a run of the machine. With the journal off
the ghost field `ledger` holds the record that would have been saved, so the same
contracts cover both settings.

### Main results

* Whatever goes wrong and however often recovery itself is interrupted, whenever no
  record is kept the whole store is exactly what it was or exactly that with the
  replacement done (`Protocol.AtomicReplacement`), as long as the destination's directory
  is there (`Protocol.AtomicIffHoused`); `UploadAndRestart` and `MoveAndRestart` show that
  k faults need at most k recoveries to get there.
* Success means the replacement happened, also for a move onto identical bytes. In a
  directory that is there a failure means that a call went wrong, and as long as recovery
  follows, one such call never makes an operation fail with anything changed: if only a
  reply is lost the replacement is found and reported as done (`Client.Client.Replaces`,
  `Client.Client.RecoverUpload`).
* No operation and no recovery of a journal changes a device root or anything in its
  special folders (`Store.OffLimits`, `Protocol.RunSpares`).
* The old target is never lost at any moment, journal on or off
  (`Protocol.NothingIsLost`).
* Recovering any valid record from any store whatever protects the destination and a
  move's source if and only if nothing it may delete is spelled like the one or lies above
  the other (`Recovery.RecoveryIsSafeIff`), and every record of the gateway's own is so.
* Recovery succeeds on everything the protocol can leave but a file moved to a directory
  that is not there (`Recovery.ConsistentIsRecoverable`, `Pending.UnfinishedBlocksIff`).
* In every interleaving of requests, crashes and restarts a mutation is alone and readers
  see a store that changes in whole steps while the journal is empty (`Gate.MutationsAreAlone`,
  `Gate.ReadersSeeAnAtomicStore`), and every copy in the file cache is of the file now
  stored under its name, except copies of the gateway's own recovery files
  (`Gate.CopiesAreCurrent`, `Gate.StaleIffInternal`); every replacement can be seen through
  while its target is in the cache (`Gate.ReplacedUnderACopy`).
* An upload that failed is kept, and for seven days goes again only if the budget needs its
  place, oldest first (`Maintenance.Folder.RetainUpload`, `Maintenance.Folder.RetainAll`).
* A jar survives the session file exactly if the address of every cookie kept can be made
  up again (`CookieJar.SaveAndRestore`).

### Where the code falls short of its promise

Each of these comes with the input that shows it and the exact condition under which the
code does keep the promise.

* A destination whose directory is not there is not refused: a listing that finds no such
  path (internal/testevs/server.go:166-170) reads as a target that is not there
  (internal/evs/client.go:932, internal/evs/upload.go:54-58, internal/evs/move.go:39-42),
  and the service stores files under such a path all the same. Without anything going
  wrong an upload then leaves its staged file behind and forgets it
  (`Protocol.OrphanRun`), and a move to a name under which nothing is stored takes the file
  to where no listing shows it and leaves a record no recovery can finish
  (`Protocol.StuckRun`, `Protocol.StuckForever`),
  after which no request changes the store again and a stopped gateway never starts
  (`Gate.JammedForever`, `Gate.MovesGetJammed`). Short of a fault an upload succeeds if and
  only if the directory is there (`Client.Client.UploadFile`), the store stays atomic under
  an upload if and only if it is (`Protocol.AtomicIffHoused`), restarts after a move empty
  the journal if and only if it is or the file has not moved
  (`Client.Client.MoveAndRestart`), and unfinished replacements stop a recovery if and only
  if one of them is such a move (`Pending.UnfinishedBlocksIff`).
* A record of a move may say committed although nothing moved. That is possible exactly if
  the target was found to hold the source's bytes to begin with (`Protocol.CommittedMeansHappenedIff`;
  `Protocol.UnmovedRun` is the run, and `Recovery.RecoveryCommitsUnmoved` shows that two
  recoveries, the first one interrupted, take it). The store is then exactly what it was
  before the move.
* Validation accepts records that name what they are to protect among what recovery
  deletes. Over all stores and all interrupted recoveries, a valid record protects its
  destination and its source if and only if (`Recovery.RecoveryIsSafeIff`): the destination
  of an upload is not spelled like its own stage, unless the record is ready and no bytes
  have its size and digest; and if the record is ready with an original and some bytes have
  that one's size and digest, the destination is not spelled like its own backup and the
  source is not beneath that backup.
  Otherwise there is a store on which one step of recovery deletes the destination, for
  the two spellings, or the source, for the third kind (`Recovery.HarmfulStep`;
  `Recovery.SelfStagedIsDeleted` is the first kind in a recovery that succeeds). The
  gateway writes no such record as long as its random identities occur in no path.
* A copy of a recovery file that was read while a replacement was pending may outlive the
  file, since starting the gateway recovers without emptying the file cache
  (`Gate.BackupCopySurvives`, `Gate.StageCopySurvives`). Without a restart, and unless a
  recovery empties the journal and still fails, that does not happen
  (`Gate.CopiesStayCurrent`). The names whose copies may be out
  of date are exactly the recovery names (`Gate.StaleIffInternal`), known by how they begin
  (`Gate.InternalIsMarked`).
* A cookie with a path such as `/%zz` is kept and saved, and the session can then not be
  loaded (`CookieJar.BadEscapeIsKept`).

### Assumptions

* SHA-256 is injective: a digest stands for the bytes it came from.
* A random identity is fresh and occurs in no path (`Recovery.Fresh`, `Paths.Free`);
  recovery of records found in a journal does not depend on it.
* One server-side rename or delete is atomic, and a download that reports success
  delivers the stored bytes.
* A call that fails has taken effect by the time it returns, or never will.
* A fault never reads as "not found", although any HTTP 404 would
  (internal/evs/client.go:901-903); only the service's own answers do.
* The service stores a file at any path, whether or not its directory is there, and
  answers a listing of a directory that is not there with the error that there is no such
  path, as its test double does (internal/testevs/server.go:128-215).
* Nobody else writes to the account, except where a statement is about an arbitrary
  store (`Recovery.RecoveryIsSafeAnywhere`, `Pending.PendingIsSafeAnywhere`).
* Records and sessions are stored faithfully; paths are valid text.
* Saving a session always takes a later time than every save before it.
* The results of `Gate` are about a gateway whose journal is on. The smoke command
  (cmd/idrive-gateway/smoke.go:63) serves requests without one, and then nothing is
  recovered before a mutation.

## Model

| member | source | states |
|---|---|---|
| Paths.CleanPathIdempotent | internal/evs/client.go:1135-1148 | a cleaned path is clean, whatever the input |
| Paths.OneMorePiece | internal/evs/client.go:1135-1148 | cleaning goes piece by piece: nothing and `.` stay, `..` goes up but not above the root, every other piece goes down |
| Paths.RejoinClean | internal/evs/client.go:1162-1179 | joining the directory and the last component of a clean path other than the root gives the path back |
| Paths.CleanRepresents | internal/evs/client.go:1135-1148 | cleaning is reading off proper components and rendering them, and the two directions are inverse |
| Paths.ParentRepresents | internal/evs/client.go:1162-1172 | ParentDir on strings is dropping the last component |
| Paths.ChildRepresents | internal/evs/client.go:1174-1179 | joinClean on strings is adding a component |
| Paths.MutableRepresents | internal/evs/client.go:1152-1160 | a path is refused for trailing whitespace exactly when a component has it |
| Paths.ReadOnlyRepresents | internal/evs/client.go:1181-1196 | a path is read-only exactly when its second component is a special folder |
| Paths.WithinRepresents | internal/evs/move.go:115-117 | the string test for lying beneath a directory is the proper prefix order on components |
| Store.CanDeleteIff | internal/evs/client.go:513-540 | a name may be deleted unless it is the root, a device root or in one of its special folders, an unlisted root, or has a component that ends in white space |
| Store.CanRenameIff | internal/evs/client.go:392-428 | likewise for both names of a rename, of which the old one must be there and the new one not |
| Store.DirectoryRenameCarriesSubtree | internal/testevs/server.go:202-219 | renaming a directory puts every descendant at the same place under the new name, empties the old one and leaves the rest alone |
| Record.FormattedIdIsValid | internal/evs/client.go:1127-1133 | every identity drawn passes the check made on restart |
| Record.FormattedIdsDiffer | internal/evs/client.go:1127-1133 | different bytes drawn make different identities |
| Record.ValidWrittenIffRecord | internal/evs/journal.go:131-154 | the string validation accepts a file exactly when it spells a valid component record |
| Record.RecoveryNamesApart | internal/evs/upload.go:67-68 | destination, stage and backup are apart from each other, and siblings, when the identity occurs in no user path |
| Record.ValidRecordApartIff | internal/evs/journal.go:131-154 | a valid record keeps destination and source apart from what recovery deletes if and only if the destination is spelled like neither of its own recovery names and a move's source is not beneath its backup |
| Record.ValidRecordMayStageItsDestination | internal/evs/journal.go:137-139 | for every identity some valid record names its own destination as its stage |
| Protocol.StepKeepsInv | internal/evs/upload.go:69-147 | every step of writer or recovery keeps the invariant over the record's flags and the contents of destination, stage, backup and source |
| Protocol.AtomicReplacement | internal/evs/journal.go:170-245 | in every run, whenever the record is gone the store is the old one or exactly the replaced one, and every other record is untouched; only an upload to a directory that is not there may leave its staged file besides |
| Protocol.AtomicIffHoused | internal/evs/upload.go:54-147 | every run of an upload keeps to that without exception if and only if the destination's directory is there; every run of a move does |
| Protocol.OrphanRun | internal/evs/upload.go:83-95 | for every upload to a directory that is not there, the run that ends without a record and with the staged file as the only difference |
| Protocol.StuckRun | internal/evs/move.go:83-104 | for every move to a directory that is not there, the run that ends with the file moved and a record kept |
| Protocol.StuckForever | internal/evs/journal.go:184-245 | from there no step of any run changes the store or loses the record |
| Protocol.RunSpares | internal/evs/client.go:1048-1063 | no run changes a device root or anything in a special folder of one |
| Protocol.CompleteRun | internal/evs/upload.go:69-147 | for every replacement in a directory that is there, a run that ends with exactly the replaced store and no record |
| Protocol.NothingIsLost | internal/evs/upload.go:96-147 | at every moment of every run the old target is at the destination or the backup unless the new bytes are in place and no record says otherwise; moved bytes are at source or destination; no other path changes |
| Protocol.CommittedMeansHappenedIff | internal/evs/move.go:83-113 | in every run of a move a committed record means that the bytes are at the destination and gone from the source, if and only if the target was not found to hold them before |
| Protocol.UnmovedRun | internal/evs/move.go:88-93 | the run that ends with a committed record and the source in place, for every target with the source's bytes |
| Protocol.VacatedOnlyByPreserving | internal/evs/upload.go:112-117 | the destination is only ever vacated by moving its bytes to the backup |
| Recovery.RecoveryIsSafeAnywhere | internal/evs/journal.go:155-245 | on any store and over any interrupted run, recovery changes nothing outside its record's names and no other record; if nothing it may delete is or covers them, also never a move's source, and the destination at most from absent to the recorded original and never once committed |
| Recovery.RecoveryIsSafeIff | internal/evs/journal.go:131-245 | for every valid record, all recoveries from all stores protect destination and source if and only if no stage it may delete is spelled like the destination, and no backup it may delete is spelled like it or lies above the source |
| Recovery.SelfStagedIsDeleted | internal/evs/journal.go:170-182 | a valid record that is not ready and stages to its own destination has recovery succeed and delete that file |
| Recovery.RecoveryCommitsUnmoved | internal/evs/journal.go:184-210 | an interrupted recovery and the next one take the last two steps of the run in which nothing moved |
| Recovery.SafeStepIsNext | internal/evs/journal.go:170-245 | on a store the protocol left, each recovery step is a step of the protocol and keeps the record in memory truthful |
| Recovery.SafeRunIsRun | internal/evs/journal.go:170-245 | so a whole recovery continues the run it interrupts |
| Recovery.ConsistentIsRecoverable | internal/evs/journal.go:170-245 | from every store and record the invariant allows, recovery succeeds unless a call goes wrong, if and only if the file is not one that was moved to a directory that is not there |
| Recovery.CommittedStands | internal/evs/journal.go:184-191 | once recovery has found the new bytes they stay, and when it ends the replacement stands with nothing left to clean |
| Recovery.RolledBackStands | internal/evs/journal.go:192-234 | once recovery has not found the new bytes, what it ends with is the state before the replacement |
| Recovery.UploadStarts | internal/evs/upload.go:62-68 | an upload with a fresh identity starts where the protocol requires, whether or not the destination's directory is there |
| Recovery.MoveStarts | internal/evs/move.go:56-60 | and so does a move |
| Recovery.RecordsSurviveRestart | internal/evs/journal.go:131-154 | whatever record a run leaves at any moment, its file passes validation on restart |
| Pending.PendingIsSafeAnywhere | internal/evs/journal.go:90-130 | recovering any journal whatever on any store touches no path that no record reaches |
| Pending.OthersKeepInv | internal/evs/journal.go:101-128 | recovering one replacement leaves every other one as it was |
| Pending.UnfinishedBlocksIff | internal/evs/journal.go:90-130 | short of a fault, the records of unfinished replacements stop a recovery if and only if one of them is of a file moved to a directory that is not there |
| Pending.PendingContinues | internal/evs/journal.go:90-130 | recovering the journal continues the run of the only replacement in it |
| Client.Client.Rename | internal/evs/client.go:392-428 | a rename is performed whole or not at all, only onto an absent name that may be changed, its directory there or not, fails only with the stated error or by a fault, and spares what is off limits |
| Client.Client.Delete | internal/evs/client.go:513-540 | likewise for a delete |
| Client.Client.RequireWritable | internal/evs/client.go:1213-1234 | refuses exactly the special folders of device roots, short of a fault |
| Client.Client.ProtectDeviceRoot | internal/evs/client.go:1048-1063 | refuses exactly the root and device roots as read-only and missing first-level names as not found, short of a fault |
| Client.Client.VerifyUpload | internal/evs/upload.go:162-184 | succeeds exactly when a file of this size and digest is stored in a directory that can be listed, short of a fault |
| Client.Client.RemoteSha256 | internal/evs/journal.go:246-261 | returns the digest of what is stored if it has the listed size |
| Client.Client.SaveUpload | internal/evs/journal.go:67-76 | a save happens whole or not at all, and an error does not say which |
| Client.Client.ForgetUpload | internal/evs/journal.go:77-86 | likewise for forgetting |
| Client.Client.RemoveKnown | internal/evs/journal.go:155-169 | deletes a name only while it holds the recorded bytes, accepts one that is not found, and fails only on other bytes or a fault |
| Client.Client.RecoverUpload | internal/evs/journal.go:170-245 | for any record that passes validation, every durable state it passes is a safe recovery step; success means forgotten and cleaned up; without a fault it reports committed if and only if the new bytes are in place and the rename had been tried, or success was on record, and succeeds if and only if the store is recoverable, on which a missing directory counts as a name not found |
| Client.Client.RecoverPending | internal/evs/journal.go:90-130 | for any journal, every durable state is a safe step of some record; success means the journal is empty, with the number of records there were; what is off limits is spared; without a fault it fails only at a record that is invalid or cannot be recovered |
| Client.Client.CleanupStage | internal/evs/upload.go:197-210 | a failed upload keeps its cause and stays within the protocol |
| Client.Client.RecoverReplacement | internal/evs/upload.go:211-225 | after a failed promotion a missing target is put back and the staged file dropped, short of a further fault; where the new bytes are in place nothing changes; the cause is kept |
| Client.Client.PreserveTarget | internal/evs/upload.go:97-117 | the target is fingerprinted, the record made ready, then the target moved aside, and memory stays truthful at every failure |
| Client.Client.Replace | internal/evs/upload.go:83-147 | success means the target holds the payload with nothing left over; failure leaves a record in memory that recovery can trust |
| Client.Client.UploadFile | internal/evs/upload.go:24-147 | it begins only for an uploadable file and path and then, the directory being there, keeps everything in `Replaces`; without a fault an uploadable file is uploaded if and only if the directory is there, and otherwise exactly the staged file is left; with a journal, failing by one fault means nothing changed; each refusal has its own error; what is off limits is spared |
| Client.Client.UploadableIff | internal/evs/upload.go:24-58 | a file may go up unless it is larger than 2,000,000,000 bytes or its path is the root, off limits, a directory's, or ends a component in white space |
| Client.Client.MovableIff | internal/evs/move.go:17-58 | and what may be moved where, in the same terms |
| Client.Client.Move | internal/evs/move.go:83-113 | the same for a move, whose record separates a rename that was tried from one that was not |
| Client.Client.MoveReplace | internal/evs/move.go:17-114 | a directory is renamed as a whole, a file replaces under `Replaces`, its new directory being there; success means it moved even between identical bytes, to a directory that is there; without a fault the store in the end is given exactly, and that a record is left if and only if the file went to a directory that is not there; failing by one fault means nothing changed; each refusal has its own error; what is off limits is spared |
| Client.Client.Resume | internal/evs/upload.go:72-82 | the deferred recovery always succeeds short of a further fault or a file moved to a directory that is not there, and committed means the replacement stands |
| Client.Client.Restart | internal/evs/journal.go:43-58 | one recovery of any unfinished replacements fails only by a fault or because a file was moved to a directory that is not there, and leaves each finished, undone or on record |
| Client.Client.RestartUntilClean | internal/evs/journal.go:43-58 | with k faults to come, at most k + 1 recoveries empty the journal and settle every replacement, unless a file was moved to a directory that is not there: the journal is empty in the end if and only if none was |
| Client.Client.UploadAndRestart | internal/evs/upload.go:24-147 | an upload and at most as many restarts as faults leave an empty journal and exactly the old store or the replaced one, or one differing only under the stage's name if the directory is not there |
| Client.Client.MoveAndRestart | internal/evs/move.go:17-114 | a move and the restarts after it leave exactly the old store or the moved file; the journal is empty if and only if the new directory is there or the file has not moved |
| Gate.StepCounted | internal/webdav/handler.go:110-124 | the semaphore's count always equals what its holders hold |
| Gate.ReadersShare | internal/webdav/handler.go:110-124 | 1,048,576 readers may read at once |
| Gate.MutationsAreAlone | internal/webdav/handler.go:112-154 | in every interleaving a mutation overlaps no other request and starts its body on an empty journal |
| Gate.StepTracked | internal/webdav/handler.go:142-154 | every step keeps the store explained by an atomic view and one pending replacement |
| Gate.ReadersSeeAnAtomicStore | internal/webdav/handler.go:113-124 | a reader that runs while the journal is empty sees the view, which only takes whole steps, save that an upload to a directory that is not there may add its staged file |
| Gate.CopiesAreCurrent | internal/webdav/cache.go:139-206 | whatever was deleted, moved, evicted, interrupted or recovered, every cached copy is of the file now stored under its name, unless the name is a recovery name under which no file is stored any more |
| Gate.ReplacedUnderACopy | internal/webdav/fs.go:524-530 | for every upload and every move onto a cached file there is a run that begins and completes it, and ends with the new bytes stored and no copy of the old ones |
| Gate.CopiesStayCurrent | internal/webdav/handler.go:142-154 | as long as nothing but a request's own recovery empties the journal, every copy is of the file now stored under its name whenever the journal is empty, recovery files included |
| Gate.BackupCopySurvives | internal/evs/journal.go:43-58 | for every move onto an existing file there is a run that ends with the store as it was, the gateway serving, and a cached copy of a backup that is gone |
| Gate.StageCopySurvives | internal/evs/journal.go:43-58 | and for every upload to a directory that is there one with a cached copy of a stage that is gone |
| Gate.StaleIffInternal | internal/webdav/cache.go:139-206 | in some run a copy of this name is out of date if and only if it is a recovery name |
| Gate.JammedForever | internal/webdav/handler.go:142-154 | once a file was moved to a directory that is not there and that request is over, no request ever changes the store again, and a gateway that has stopped never serves again |
| Gate.MovesGetJammed | internal/webdav/handler.go:142-154 | for every move to an unused name in a directory that is not there, a run without faults that ends so |
| Gate.InternalIsMarked | internal/evs/upload.go:67-68 | a recovery name is known by how its last component begins |
| Gate.SweepIsRecovery | internal/webdav/handler.go:142-154 | the trace of RecoverPending is what the gate takes for a recovery |
| BrowseCache.Cache.InvalidatePaths | internal/evs/client.go:1065-1077 | exactly the listings at or beneath the paths go, and the generation moves on |
| BrowseCache.Cache.StoreBrowse | internal/evs/client.go:1016-1046 | a listing enters only if nothing was invalidated since it was asked for, for 300 seconds; there are at most 1024; no good listing goes while an expired one could, and never more than one |
| BrowseCache.Cache.CachedBrowse | internal/evs/client.go:1003-1014 | a listing is served until it expires and is then invalidated |
| BrowseCache.ListedIff | internal/evs/client.go:250-311 | a listing shows exactly what is directly in the directory, files with their sizes |
| BrowseCache.ListingsChangedAreAnnounced | internal/evs/client.go:416-419 | a mutation changes no listing but those it invalidates |
| BrowseCache.RenameAnnounces | internal/evs/client.go:392-428 | this holds of a rename, of files and of directories |
| BrowseCache.DeleteAnnounces | internal/evs/client.go:513-540 | and of a delete |
| BrowseCache.MkdirAnnounces | internal/evs/client.go:358-390 | and of a new directory |
| BrowseCache.CachedListingsAreCurrent | internal/evs/client.go:250-311 | in every interleaving a cached listing is the server's own unless some mutation has still to invalidate it |
| Maintenance.Folder.RemoveRetainedFile | internal/webdav/maintenance.go:128-138 | a file goes with the metadata beside it and nothing else goes |
| Maintenance.Folder.CollectFiles | internal/webdav/maintenance.go:45-97 | the total is the summed size of the counted regular files, no smaller if a removal failed; only those past their age go; links and irregular files stay and do not count |
| Maintenance.Folder.EvictOldest | internal/webdav/maintenance.go:98-108 | eviction is oldest first, spares what is shielded, stops within the budget, and its last victim was needed |
| Maintenance.Folder.PruneFiles | internal/webdav/maintenance.go:34-108 | the same for both passes over the files, with no metadata left without its upload; even the youngest file that goes before its age had to, and none does if all fits |
| Maintenance.RemoveEmpty | internal/webdav/maintenance.go:109-123 | the directories that remain are exactly those at or above a remaining file, the protected or a pinned file, or a directory that cannot be removed |
| Maintenance.Folder.RetainUpload | internal/webdav/maintenance.go:150-202 | success means the bytes and their description are kept, as of now; every call keeps payload and metadata within the budget, and one that fits it ends within it whatever was there before; what was retained in the last seven days goes only for want of room, oldest first |
| Maintenance.Folder.RetainAll | internal/webdav/maintenance.go:150-202 | over any sequence of failed uploads at any times the directory stays within the budget at every hour, success is claimed exactly where due, and if all fit and come within seven days every one claimed is still there at the end |
| Maintenance.Folder.AllBytesWithin | internal/webdav/maintenance.go:34-108 | a directory within its budget holds no more bytes than that, whichever files one adds up |
| Maintenance.OldestFirstSorts | internal/webdav/maintenance.go:98-98 | the eviction order is sorted by time and a permutation of the files |
| Maintenance.UsageWithout | internal/webdav/maintenance.go:99-108 | taking one counted file away takes exactly its weight off the total |
| FileCache.Cache.PinsBalance | internal/webdav/cache.go:125-137 | a pin taken and released leaves every other pin in place |
| FileCache.Cache.Fill | internal/webdav/cache.go:162-206 | a download is published only with the listed size, and a failed one leaves the cache as it was |
| FileCache.Cache.Ensure | internal/webdav/cache.go:69-110 | succeeds exactly if a copy of the right size is kept, or can be downloaded with nothing but a file in the way; never evicts what was asked for, which counts as new, nor anything before its age if all fits |
| FileCache.Cache.Open | internal/webdav/cache.go:112-123 | whatever others prune between download and opening, the bytes read are the ones kept or downloaded |
| Writes.WriteState.Complete | internal/webdav/handler.go:42-55 | true exactly if nothing failed and, for a PUT alone, the body ended with its declared length |
| Writes.ReadsBack | internal/webdav/fs.go:541-560 | bytes written at any offset read back, every other byte reads as before, and a gap reads as zeros |
| Writes.WrittenOn | internal/webdav/fs.go:547-560 | writing one piece after the other is writing both at once |
| Writes.WriteFile.Seek | internal/webdav/fs.go:543-545 | the offset moves to the target, if that is not before the start, as it does for a read handle |
| Writes.WriteFile.Write | internal/webdav/fs.go:547-560 | bytes go in at the handle's offset up to the size limit; if the limit or the disk keeps any back the state fails |
| Writes.WriteFile.CopyBody | internal/webdav/handler.go:67-83 | over any sequence of reads, an unfailed state vouches for every byte of the body being in the file at the offset where it began |
| Writes.WriteFile.Close | internal/webdav/fs.go:511-539 | nothing is uploaded unless the body is whole, and past that check every outcome leaves the bytes at the target, in the recovery directory if they fit there, or in the temporary file; a handle that is no PUT's commits whatever was written unless something failed |
| Writes.WriteFile.HandlePut | internal/webdav/fs.go:511-539 | a PUT commits exactly its body, only if it ended with the declared length, and short of a fault it does if the target is one that may be written and its directory is there |
| Writes.WriteFile.HandleCopy | internal/webdav/fs.go:511-560 | a COPY commits exactly its source, only if that was read to its end, and short of a fault it does if the target is one that may be written and its directory is there, whatever body came with the request |
| Chunks.ChunkSizes | internal/evs/client.go:969-982 | chunks of one MiB up to 20 MiB, of four up to 102 MiB, and of sixteen beyond |
| Chunks.UploadChunked | internal/evs/client.go:693-753 | the loop sends the specified parts with their offsets and takes its checksum of the whole file |
| Chunks.PartsAreTheFile | internal/evs/client.go:701-707 | the parts are not empty, not too long, all but the last full, and concatenate to the file |
| Chunks.AtMost120Chunks | internal/evs/client.go:969-982 | no file that may be uploaded needs more than 120 chunks, and one needs that many |
| Aliases.BuildRootAliases | internal/webdav/fs.go:606-650 | the two loops give every device, and nothing else, its display name in both directions |
| Aliases.DisplayIff | internal/webdav/fs.go:620-648 | a device is shown under the name it was given if and only if that is usable, no root's own name and no other device's, and else under its raw name |
| Aliases.DisplaysApart | internal/webdav/fs.go:638-648 | no two devices share a display name and none takes another root's name |
| Aliases.RawRoundTrip | internal/webdav/fs.go:142-174 | raw to display and back is the identity beneath every existing root |
| Aliases.DisplayRoundTrip | internal/webdav/fs.go:142-174 | display to raw and back is the identity on every exposed path |
| Reads.SliceIsThere | internal/webdav/fs.go:313-333 | a read gives as many bytes as are asked for and there, from the offset on, and tells the end where the eager file does |
| Reads.TargetIsCounted | internal/webdav/fs.go:335-367 | a seek counts from the start, the present offset or the end, and never before the start |
| Reads.ReadFile.EnsureLocal | internal/webdav/fs.go:378-411 | the file is downloaded once, opened at the pending offset, and refused at any other size |
| Reads.ReadFile.SeekTo | internal/webdav/fs.go:335-367 | a seek, before or after the download, is the eager handle's seek |
| Reads.ReadFile.ReadSome | internal/webdav/fs.go:313-322 | a read is the eager handle's read or is lost to a failed download that changes nothing |
| Reads.ReadFile.PerformAll | internal/webdav/fs.go:277-411 | over any sequence of operations the lazy handle replies as a file open from the start, save for lost reads |
| Session.SessionFile.Save | internal/session/store.go:97-134 | a save that names the session it is to replace, its own or another, is refused exactly if the file is not that one |
| Session.Persistence.Save | cmd/idrive-gateway/session.go:32-50 | a save that writes replaces the very write this server last saw, of its own session; it succeeds whenever that is still there |
| Session.Persistence.Undisturbed | cmd/idrive-gateway/session.go:27-31 | another process's writes leave a server's claim to its revision as it is |
| Session.SessionSinceLogin | internal/session/store.go:97-134 | between two logins the file stays in the first one's session, however many servers refresh it |
| CookieJar.Jar.SetCookies | internal/session/jar.go:34-79 | the loop is the storage model, and every kept cookie says where it was kept |
| CookieJar.SettingTouchesOne | internal/session/jar.go:41-78 | a cookie taken replaces or ends the one with its domain, path and name, and no other cookie changes |
| CookieJar.SentUntilItEnds | internal/session/jar.go:41-112 | exactly which cookies are taken, until when they are kept, and to which hosts they go |
| CookieJar.DirectoryIsThePath | internal/session/jar.go:53-59 | the path is the one given or the directory of the page |
| CookieJar.SetOneSound | internal/session/jar.go:41-78 | what the jar accepts it can accept again from the cookie's own host |
| CookieJar.Jar.Snapshot | internal/session/jar.go:86-112 | expired cookies go and each cookie the host would be sent is listed once |
| CookieJar.SettingRestores | internal/session/store.go:147-165 | setting a saved cookie again puts back exactly what was kept, host-only scope, path and expiry included, or drops what has expired |
| CookieJar.NewCookieJar | internal/session/store.go:136-165 | the loop over a saved list fails exactly if some cookie's address does not parse, and otherwise rebuilds the map it lists less what has expired |
| CookieJar.SaveAndRestore | internal/session/store.go:136-183 | out to the file and back at any later time works if and only if the address of every selected cookie parses; then the restored jar and the next snapshot hold the selected cookies that have not expired |
| CookieJar.BadEscapeIsKept | internal/session/store.go:147-165 | the cookie set with path `/%zz` is kept and selected, and the jar it is in cannot be restored if that address does not parse |
| Shutdown.Handler.Enter | internal/webdav/handler.go:205-226 | requests are admitted until closing, each busy period with a channel of its own |
| Shutdown.Handler.Leave | internal/webdav/handler.go:217-224 | the last request of a period closes its channel |
| Shutdown.DrainThrough | internal/webdav/handler.go:227-242 | after a drain begins no request starts, and the channel it waits on closes exactly when none is left |
| CookieJar.KeysApart | internal/session/jar.go:60-60 | distinct domain, path and name never collapse into one key |

## Left out

- HTTP transport, multipart encoding, response decoding, redirects and deadlines are one fault per call.
- JSON, the 16384-byte limit on records, file permissions and fsync: a record is stored whole or not at all.
- Recovery files that do not decode: an undecodable record stops recovery as an invalid one does.
- Client.Client.UploadFile: takes the path by its components and the identity as an argument; `Paths` shows that components lose nothing of a clean path, and `Record.FormattedIdIsValid` that a drawn identity is valid.
- Client.Client.MoveReplace: takes paths and identity in the same way.
- Copy, Move and their polling: the server may apply them after the call has returned.
- The shared in-flight listing of Browse: a joined caller may get an older listing, so the results speak of the cache itself.
- A staging upload whose reply is lost does not invalidate its parent's listing; the listing cache results cover mutations that invalidate.
- Device metadata and node classification in listings beyond what write protection needs.
- Cache file names, the five-minute bucket and joined flights: in the gate a copy may be evicted at any time, and a reader may publish one whenever it has downloaded it.
- Maintenance.Folder.PruneFiles: classifies names instead of matching their spelling, and takes what a link leads to as lying outside the directory.
- Maintenance.Folder.CollectFiles: likewise; errors of the walk itself are not modelled.
- FileCache.Cache.Ensure: takes renewing the time of a kept copy as always working.
- Session.SessionFile.Save: leaves out the identity derived for a session saved without one.
- CookieJar.Jar.Snapshot: lists in any order; the public suffix list, the parsing of addresses and URLs and Go's own jar are parameters or absent, and hosts are plain DNS names.
- Preconditions, protected root renames and directory reads are short single functions.
- Login, webview, tokens, password files, command line, probes, packaging and the rclone patch.
