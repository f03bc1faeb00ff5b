# macftpd, modelled and verified

macftpd is a file host with FTP and HTTP front ends. This project models the parts of it that keep state
and proves what they keep:

- `Paths.dfy`: the path resolver, from strings (trimming, cleaning, joining) to lists of segments.
- `Tree.dfy`: the file tree below the storage base and the file-system calls made on it. Every call may
  fail, and its contract says what it may leave behind, so a statement about a caller holds for every
  pattern of failures. The ghost field `calm` says that no call has failed for a reason that the tree does
  not show; what an operation then does is stated exactly, so no operation meets its contract by failing.
- `Copying.dfy`, `Retention.dfy`, `Storage.dfy`: copying, trash, versions, restoring, and putting a staged
  file into place. The first two hold the relations between trees and the theorems about them; the class
  `Storage.Root` holds the operations. `Conservation.dfy`: what any sequence of them keeps.
- `FtpTransfer.dfy`, `PassivePorts.dfy`, `ReadNoise.dfy`: REST, STOR, APPE and RETR (section 5 of RFC 3659,
  section 4.1.3 of RFC 959); the data-channel set-up of a session and its ledger of port mappings; the
  summarized logging of read errors.
- `UploadLock.dfy`, `ChunkUpload.dfy`, `ChunkProgress.dfy`, `PartNames.dfy`: the lock table of chunked uploads
  line by line for any number of threads, the part files the locks protect, how uploads get on, and the names
  of the part files.
- `RateLimit.dfy`, `Share.dfy`, `Activity.dfy`, `Auth.dfy`: the login limiter, the share links with their
  download reservations, the activity log with the dashboard over it, and the user store.
- `Text.dfy`, `Bytes.dfy`, `Common.dfy`: the string functions, writes to an open file, and datatypes that the
  others share.

Where the code updates objects in place, a class has the same fields and methods, and each method is proved
equal to a step on values; the theorems are about all runs of those steps. Clocks are integers that are
passed in and never go back. Hashes, random tokens, JSON, the network and the resolver's configuration are
parameters.

## What turned out to need a condition

- `cleanVirtual` trims white space before it cleans, so cleaning twice can differ from cleaning once. Mounted
  paths and hidden-name tests clean a second time. Containment and the hiding of internal names therefore
  hold except for a last segment that is ".." and white space; the exact conditions are
  `Paths.ResolveStaysInsideIff` and `Paths.ResolveHidesInternalIff`.
- A restore without a destination goes to the recorded virtual path. The tree comes back exactly when
  mounting and cleaning leave the path alone (`Retention.DeletedRequestComesBackIff`); what was deleted
  through a mount comes back only where the mount is the directory's own place
  (`Retention.PublicComesBackIff`, `Retention.DropboxComesBackIff`).
- A restore that must not overwrite takes any error of its existence test for "not there", so it can
  replace a file when that test fails (`Storage.Root.MoveBack`, `Retention.FailedTestLosesBytes`).
  It loses bytes exactly when no other place holds them (`Conservation.RestoreConservesIff`). Over every run of
  uploads, copies, deletions, versions and restores nothing else loses a user's bytes, except a restore to where
  users do not see them (`Conservation.RunConserves`).
- A failure that is recorded more than a window after the first one starts a new count and lifts the lock of
  its key (`RateLimit.LateFailureLiftsLockIff`).
- A listing leaves out entries whose details cannot be read, without an error. A successful copy is complete
  exactly when that did not happen (`Copying.CopyIsCompleteIff`).
- A folder can be copied to a place above it. When it shows a child of the name that leads back to it, what was
  copied is copied again, and the result depends on the order (`Copying.CopyUpwardsReadsAgain`).
- Copying a file onto itself with overwriting leaves it empty (`Storage.Root.CopyFile`).
- Saving a group can remove the last administrator (`Auth.GroupWriteKeepsAdminIff`).
- Deleting a share link keeps its running downloads counted, so the download bound needs ids that are never
  reused (`Share.StepKeepsBoundIff`).
- A reload of the activity log gives back the window exactly when every event of it can be read back
  (`Activity.ReloadKeepsWindowIff`). A torn write also spoils the line after it, in the same run or after a
  restart (`Activity.TornBeforeRestartSpoilsFirst`).
- A chunk that runs past the end of its upload is cut away again. Exactly when that does not happen, because a
  call fails or the server stops, the part keeps one byte too many (`ChunkProgress.PartCanStaySpoilt`). It is then
  never committed and accepts no offset until it is restarted (`ChunkUpload.SpoiltPartRefuses`).
- A failed TLS handshake on a data connection leaves the passive port mapped; the ledger counts such ports
  (`PassivePorts.LedgerBalances`).

## Model

| member | source | states |
|---|---|---|
| Paths.CleanVirtualIsNormal | internal/storage/storage.go:717-727 | cleanVirtual yields "/" or "/s1/.../sn" with no empty, "." or ".." segment and no separator in one |
| Paths.CleanVirtualOfNormal | internal/storage/storage.go:717-727 | cleaning a normal path can only change its last segment, which loses trailing white space and may then act as ".." |
| Paths.CleanVirtualIdempotentIff | internal/storage/storage.go:717-727 | cleaning twice is cleaning once exactly when the result does not end in white space |
| Paths.CleaningTwiceCanDiffer | internal/storage/storage.go:717-727 | for every ordinary name a path of which the second cleaning differs |
| Paths.RenderInjective | internal/storage/storage.go:717-727 | a normal path determines its segments |
| Paths.BelowIsProperPrefix | internal/storage/storage.go:82-84 | the string test "starts with home and a slash" is the proper-prefix test on segments |
| Paths.RealOfNormal | internal/storage/storage.go:270-277 | on normal paths realFromVirtual never fails and appends the segments to the base |
| Paths.BackFromReal | internal/storage/storage.go:279-292 | relFromReal of a path at or below the base is the path without its slash, "." for the base |
| Paths.RealAndBack | internal/storage/storage.go:270-292 | the two conversions are inverse on normal paths |
| Paths.IgnoredOnSegments | internal/storage/storage.go:176-205 | the hidden-name test on strings is a test of every segment of the path cleaned once more |
| Paths.MountSuffixOnSegments | internal/storage/storage.go:259-268 | the suffix below a mount point is the rest of the segments |
| Paths.MountOnSegments | internal/storage/storage.go:242-257 | mountVirtual replaces the mount point's segments by the public directory's or the user's dropbox's and cleans once more |
| Paths.ResolveOnSegments | internal/storage/storage.go:70-93 | Resolve accepts exactly the requests below the home whose mounted and cleaned path has no hidden segment; the real path is the mounted path below the base |
| Paths.RelativeRequest | internal/storage/storage.go:76-81 | "s1/.../sn" in the directory c means c/s1/.../sn |
| Paths.ParentRequest | internal/storage/storage.go:76-81 | ".." means the parent of the current directory, the base being its own |
| Paths.SelfRequest | internal/storage/storage.go:73-81 | no request and "." mean the current directory |
| Paths.AbsoluteRequest | internal/storage/storage.go:76-81 | a rooted request means the same from everywhere |
| Paths.StepwiseRequest | internal/storage/storage.go:76-81 | a request of two parts means the second part, asked from where the first leads |
| Paths.SlashesAt | internal/storage/storage.go:717-727 | backslashes count as slashes, position by position |
| Paths.ResolveRelative | internal/storage/storage.go:70-93 | a relative request in the user's own part of the home resolves to the base, the directory and the request put together, with that virtual path |
| Paths.ResolveMounted | internal/storage/storage.go:242-257 | a relative request below a granted mount resolves to the mount's directory and the rest |
| Paths.ResolveStaysInside | internal/storage/storage.go:70-93 | an accepted path is in the home, the granted public directory or the user's own granted dropbox, or the request climbs and which directory it then gets |
| Paths.ResolveStaysInsideIff | internal/storage/storage.go:70-93 | containment holds exactly unless the request climbs out of its mount into a directory that is neither the home nor the granted public directory |
| Paths.PublicMountCanClimb | internal/storage/storage.go:242-257 | climbing requests exist |
| Paths.SpacedDotsExist | internal/storage/storage.go:717-727 | a segment that cleaning keeps and a second cleaning takes for ".." exists, so climbing requests do |
| Paths.VisibleHidesInternalIff | internal/storage/storage.go:176-205 | the hidden-name test misses an internal name exactly when the path ends in ".." and white space right below it |
| Paths.ResolveHidesInternalIff | internal/storage/storage.go:70-93 | no accepted path has an internal segment, with exactly that exception |
| Paths.NameBelowInternalIsAccepted | internal/storage/storage.go:95-105 | the exception exists |
| Paths.ResolveAdminOnSegments | internal/storage/storage.go:95-105 | the administrator's resolver: same cleaning and hiding, no jail, no mounts |
| Tree.MovedIsWellFormed | internal/storage/storage.go:481-495 | a rename that the file system accepts leaves every entry in a directory |
| Tree.MovedBack | internal/storage/storage.go:576-592 | renaming to a free place and back restores the tree exactly |
| Tree.Disk.MkdirAll | internal/storage/storage.go:346-357 | only missing directories on the way are made, all of them on success; when no call fails it succeeds exactly when no file is in the way |
| Tree.Disk.RemoveAll | internal/storage/storage.go:376-387 | a failing removal may leave any part of the subtree, and nothing outside is touched |
| Copying.ChildrenAreApart | internal/storage/storage.go:616-618 | the test that the destination is not inside the source never fires below the top |
| Copying.ShownChildIsApart | internal/storage/storage.go:632-635 | for separate places every listed child is copied to an unrelated place |
| Copying.ChildIsCopied | internal/storage/storage.go:632-639 | copying one more listed child extends the copy by exactly that child |
| Copying.ChildIsCounted | internal/storage/storage.go:639-640 | the counts add up without counting a file twice |
| Copying.LoopContinues | internal/storage/storage.go:632-647 | one round of the loop extends the copy by one child and keeps the counts exact |
| Copying.SkippedContinues | internal/storage/storage.go:632-647 | one round skips only entries that should have been listed, and none below a child that is still to be copied |
| Copying.FreshCopyIsPrunedSource | internal/storage/storage.go:613-652 | copied to a free place, the destination is the source without hidden and skipped entries below the top |
| Copying.CopyChangesNothingElse | internal/storage/storage.go:613-652 | for separate places source and surroundings are unchanged but for directories above the destination |
| Copying.CopyIsCompleteIff | internal/storage/storage.go:132-147 | the copy holds every shown entry exactly when the listings skipped none |
| Copying.TracingContinues | internal/storage/storage.go:632-647 | wherever the destination is: after each round every entry is an old one, of its own place or of a place some copies down, under a shown name, and every copied entry has one of its kind at its place |
| Copying.ChildFits | internal/storage/storage.go:632-640 | when nothing stands in the way of the copy of a folder to a separate place, nothing that the copy itself has done stands in the way of the next child |
| Copying.CopyUpwardsReadsAgain | internal/storage/storage.go:632-640 | copied upwards, a folder with a shown child of the name that leads back to it gives the destination the child's entry instead of its own |
| Storage.MergeIsUnion | internal/storage/storage.go:641-650 | the reported strategy is "mixed" exactly when both ways of copying were used, whatever the nesting and order |
| Storage.EveryTreeIsBounded | internal/storage/storage.go:632-639 | the depth that bounds the recursion exists |
| Storage.StaysBounded | internal/storage/storage.go:632-639 | what a copy adds to its own source is no deeper than the source, so the recursion ends also there |
| Storage.HiddenNames | internal/storage/storage.go:132-136 | for every name: a listing hides it exactly when a segment of the cleaned name is hidden; the storage layer's own names are always hidden |
| Storage.Root.List | internal/storage/storage.go:121-148 | every shown entry once, except those whose details could not be read; when no call fails it succeeds for every directory and leaves none out |
| Storage.Root.CopyFile | internal/storage/storage.go:654-696 | on success the destination equals the source and the count is right; onto itself the file is emptied; without overwriting no existing entry changes whatever fails; when no call fails it succeeds if the destination's directory can be made and nothing, or with overwriting a file, is there |
| Storage.Root.CopyDir | internal/storage/storage.go:613-652 | on success: for separate places, also upwards, the pruned source laid over the destination, and exact numbers of files and bytes; for all places which entries a place can have got, and that none is missing. Always: nothing is removed, only files below the destination change and only when overwriting. When no call fails: a copy to a separate place succeeds and is complete if directories can be made there and whatever is there may be overwritten and is of the same kind |
| Storage.Root.CopyEntries | internal/storage/storage.go:631-651 | the loop of copyDir, for every order of the listing |
| Storage.Root.Copy | internal/storage/storage.go:599-611 | the same for files and folders, and never to the base itself; the same success when no call fails |
| Retention.ExactlyOnePlace | internal/storage/storage.go:576-595 | after trashing, successful or not, each entry of the subtree is at exactly one of its two places, the same for all |
| Retention.MovedAside | internal/storage/storage.go:576-580 | the rename into the payload moves the whole subtree and nothing else |
| Retention.MovedBackAgain | internal/storage/storage.go:587-592 | the rollback restores every entry and empties the payload |
| Retention.CleanedUp | internal/storage/storage.go:560-562 | the cleanup, even half done, removes nothing that was there before |
| Storage.Root.Retain | internal/storage/storage.go:546-597 | under every pattern of failures: success with metadata and payload, or the tree as it was, or a failed rollback that left the payload complete; when no call fails it succeeds exactly when the entry is there, the directory can be made and is not inside the entry |
| Storage.Root.Trash | internal/storage/storage.go:389-391 | the subtree is in the payload with its metadata, or where it was; if the rollback failed it is in the payload; when no call fails, success under exactly that condition |
| Storage.Root.Version | internal/storage/storage.go:393-395 | the tree is unchanged outside the retained directory; on success the payload is a copy, of a file the exact bytes; when no call fails, success under exactly that condition, and nothing is skipped |
| Storage.RecallsTheEntry | internal/storage/storage.go:439-452 | a restore of either kind looks in the directory that its kind is retained in and reads the metadata that was written there |
| Storage.RecordsOwnPlaceIff | internal/storage/storage.go:551-553 | an entry retained without a virtual path is recorded under its own place: a restore leads back exactly unless the name ends in white space |
| Storage.RestoreIsPossible | internal/storage/storage.go:473-475 | after trashing, nothing stands in the way of the restore to the same place |
| Retention.RestoredBy | internal/storage/storage.go:466-478 | after the preparations, the rename and the tidying the payload is at the destination and the rest is unchanged |
| Storage.Root.MoveBack | internal/storage/storage.go:460-477 | the payload moves whole or not at all; without overwriting the destination is asked for once, a found one is left alone, and an existing file is replaced only if the answer was an error; when no call fails it succeeds exactly when the payload is there, directories can be made above the destination, it is neither inside nor around the payload, and is free or may be replaced |
| Retention.FailedTestReplacesFile | internal/storage/storage.go:461-475 | when the test fails, the rename onto an existing file meets its conditions and replaces the file |
| Retention.FailedTestLosesBytes | internal/storage/storage.go:461-475 | a tree in which this loses the file's bytes |
| Storage.Root.Restore | internal/storage/storage.go:439-479 | where a restore goes, as soon as the record was read, and what it changes, for every destination, its own metadata file included; without overwriting a failed one changes nothing that was there, and an existing file is replaced only if the question for it failed; when no call fails the record is read exactly when there is one, and the restore succeeds under exactly the condition above |
| Retention.TrashThenRestoreIff | internal/storage/storage.go:439-479 | trash then restore gives users the same tree exactly when it went to the trashed path |
| Storage.TrashThenRestore | internal/storage/storage.go:389-479 | the two calls one after the other: the tree comes back exactly when the record leads back, and then it does come back when no call fails; a failed restore keeps the payload |
| Storage.VersionThenRestore | internal/storage/storage.go:393-479 | versioning a file and restoring the version, under either name of the kind: the old bytes are at the recorded or given place and users see no other change, or, without overwriting, the version is kept; when no call fails the restore succeeds exactly when directories can be made above the place and it is free or may be replaced |
| Retention.RecordedDestination | internal/storage/storage.go:453-457 | the recorded path is cleaned twice on its way back |
| Retention.DeletedRequestComesBackIff | internal/ftpserver/server.go:847-868 | for a user's delete the tree comes back exactly when mounting and cleaning leave the path alone |
| Retention.UnmountedComesBack | internal/storage/storage.go:453-457 | without a mount it does, unless the path ends in white space |
| Retention.PublicComesBackIff | internal/storage/storage.go:242-257 | below the public mount the record leads back exactly when the home is the base and the directory is called "public" |
| Retention.DropboxComesBackIff | internal/storage/storage.go:242-257 | below the dropbox mount it does exactly for a user called "dropbox" whose home is the directory of all dropboxes |
| Retention.DroppedFileIsAccepted | internal/storage/storage.go:70-93 | "/home/dropbox/name" is accepted and means the user's own dropbox |
| Retention.DroppedFileGoesElsewhere | internal/storage/storage.go:453-457 | what is deleted there is recorded for, and restored to, the home directory |
| Retention.MovedFile | internal/storage/storage.go:515 | renaming a file changes only the two names |
| Retention.RenamedIntoPlace | internal/storage/storage.go:515 | the last step of ReplaceFile: the destination holds the staged bytes and the staged name is gone |
| Storage.StillPreserved | internal/storage/storage.go:507-515 | the rename does not touch the version that was just made |
| Storage.Root.ReplaceFile | internal/storage/storage.go:500-516 | all or nothing: staged bytes at the destination with the previous bytes and their description retained, or everything as it was; also for a missing staged file, a staged folder and a file replaced by itself; when no call fails it succeeds exactly when the rename is possible and a file to be preserved can be retained |
| Storage.Root.InstallFile | internal/storage/storage.go:520-544 | an existing destination is never altered and the staged bytes are never lost; when no call fails it succeeds exactly when the staged file is there and the destination is free in a directory |
| Conservation.TrashConserves | internal/storage/storage.go:576-595 | trashing, also with a failed rollback, keeps the bytes of every file at a user path or in a payload |
| Conservation.ReplaceConserves | internal/storage/storage.go:500-516 | so does replacing with the previous file preserved, whatever the staged file was |
| Conservation.RestoreConservesIff | internal/storage/storage.go:460-478 | a restore to where users see it loses bytes exactly when it replaces a file that no other user path or payload holds |
| Conservation.FailedTestDoesNotConserve | internal/storage/storage.go:461-475 | the exception is needed |
| Conservation.OutcomeConserves | internal/storage/storage.go:389-544 | whatever fails in it, a call conserves every user's bytes; of a restore this needs that its recorded or given place is a user path and free, or holds a file that is also elsewhere |
| Conservation.Perform | internal/storage/storage.go:389-611 | each call of the storage layer, copies without overwriting included, ends in one of the outcomes that the statement is about |
| Conservation.RunConserves | internal/storage/storage.go:389-611 | over every run of calls that are safe when they are made, every user's bytes are conserved |
| Conservation.PerformAll | internal/storage/storage.go:389-611 | any sequence of calls is such a run, tree by tree |
| FtpTransfer.PreparedThenReceived | internal/ftpserver/server.go:723-772 | seeking, truncating and writing make old bytes up to the offset, or all of them for APPE, and then the data |
| FtpTransfer.StagedIsPutInPlace | internal/ftpserver/server.go:792-796 | after a replaced destination users see no other change |
| FtpTransfer.Session.Restart | internal/ftpserver/server.go:825-839 | an accepted offset becomes pending, a refused one changes nothing |
| FtpTransfer.OffsetIff | internal/ftpserver/server.go:825-839 | REST accepts exactly decimal digits, perhaps after a sign and zeros and with white space around, of a number from 0 to the largest 64-bit integer, and takes it for that number |
| FtpTransfer.OffsetOfDecimal | internal/ftpserver/server.go:825-839 | "REST n" asks for n, whatever white space is around it |
| FtpTransfer.Session.ConsumeRestart | internal/ftpserver/server.go:841-845 | the pending offset is handed out once |
| FtpTransfer.Session.CreateStagedUpload | internal/ftpserver/server.go:806-823 | a new empty file in the staging area, or nothing but the staging area; it succeeds when no call fails and that area can be made |
| FtpTransfer.Session.Prepare | internal/ftpserver/server.go:723-756 | the staged bytes and the write position before the transfer |
| FtpTransfer.Session.FillStaged | internal/ftpserver/server.go:723-791 | only the staged file changes; on success it is complete |
| FtpTransfer.Session.StoreStaged | internal/ftpserver/server.go:713-804 | the upload after its checks, with the deferred removal; when no call fails the reply is 226 exactly when the connection delivered everything and the staging and version areas can be made |
| FtpTransfer.Session.Store | internal/ftpserver/server.go:671-804 | 226 commits data, old + data or old up to the offset + data, with the old file versioned; any other reply leaves the tree as users see it but for new directories; 503 exactly for REST before APPE; when no call fails the reply is 226 exactly when the connection delivered everything, the offset is acceptable, and the directories of the destination, the staging area and the version can be made |
| FtpTransfer.Session.Retrieve | internal/ftpserver/server.go:609-669 | 226 sends the file from the offset, 426 a beginning of that, other replies nothing; the offset is used up; when no call fails the reply is 226 exactly when the connection opens, there is a file and the offset is in it |
| FtpTransfer.PendingIsInForce | internal/ftpserver/server.go:835-845 | an offset is pending exactly when an accepted REST was neither replaced nor used, and it is that one's |
| FtpTransfer.RestIsUsedOnce | internal/ftpserver/server.go:841-845 | no REST is used by two transfers and no transfer uses two |
| FtpTransfer.NextTransferUsesRest | internal/ftpserver/server.go:423-433 | a REST that is not replaced is used by the first permitted transfer after it |
| FtpTransfer.ExecuteAll | internal/ftpserver/server.go:423-437 | over any command lines, RETR, STOR, APPE and REST leave the pending offset that the three rows above speak of |
| FtpTransfer.AttemptKeepsPrefix | internal/ftpserver/server.go:671-804 | an acknowledged upload of the right slice leaves a prefix of the source up to its end |
| FtpTransfer.UploadsRebuildSource | internal/ftpserver/server.go:671-804 | any chain of resumed, appended or restarted uploads of one file onto a prefix of it leaves a prefix, up to where the last ended |
| FtpTransfer.UploadPiece | internal/ftpserver/server.go:671-845 | one REST and STOR or APPE of a session, with what the file holds there, is the attempt that the piece, the content, the pending offset and the reply determine |
| FtpTransfer.LedToPrefix | internal/ftpserver/server.go:671-845 | after an acknowledged piece the content is the file up to where that piece ended |
| FtpTransfer.UploadPieces | internal/ftpserver/server.go:671-845 | a session's calls for one file, in any order and over any connections: the destination is always a prefix of the file, and is the file when the last piece was acknowledged and reached its end; users see no other change |
| FtpTransfer.DownloadsRebuildSource | internal/ftpserver/server.go:609-669 | broken-off and resumed downloads join to a prefix of the file, and to the file when the last was complete |
| PassivePorts.Session.CloseListener | internal/ftpserver/server.go:1568-1578 | listener and port are given up and the mapping released if there is one |
| PassivePorts.Session.EnterPassiveMode | internal/ftpserver/server.go:1009-1021 | the new listener replaces the old one and any active address |
| PassivePorts.Session.EnterActiveMode | internal/ftpserver/server.go:1311-1313 | the active address replaces a listener |
| PassivePorts.Session.Open | internal/ftpserver/server.go:1341-1377 | the port passes to the data connection, or is released when nothing connects |
| PassivePorts.Session.CloseData | internal/ftpserver/server.go:1420-1424 | closing the connection releases its port |
| PassivePorts.Session.CloseSetup | internal/ftpserver/server.go:1580-1583 | nothing of the set-up is left |
| PassivePorts.PortPool.ListenPassive | internal/ftpserver/server.go:1264-1284 | the first free port in rotation, the next search starting after it |
| PassivePorts.FirstFreeIsFree | internal/ftpserver/server.go:1274-1282 | the port found is free |
| PassivePorts.FirstFreeMissesNone | internal/ftpserver/server.go:1274-1282 | every port tried before it is busy |
| PassivePorts.ListenFailsIffAllBusy | internal/ftpserver/server.go:1264-1284 | the search fails exactly when every configured port is busy |
| PassivePorts.ListenTwice | internal/ftpserver/server.go:1264-1284 | the port just found is found again only if every other one is busy |
| PassivePorts.StepBalances | internal/ftpserver/server.go:1341-1424 | one step keeps the books of a port |
| PassivePorts.LedgerBalances | internal/ftpserver/server.go:1009-1578 | over every command sequence listener and active address are never both set, and outstanding mappings are those of the listener, of the live data connection and of failed handshakes |
| PassivePorts.ClosedSessionOwesOnlyLeaks | internal/ftpserver/server.go:1560-1578 | after the session closes only ports of failed handshakes are outstanding |
| PassivePorts.ClosingOwesNothing | internal/ftpserver/server.go:1560-1578 | in a run without failed handshakes, closing while no data connection is open leaves no port mapped |
| PassivePorts.NeverReleasedTwice | internal/ftpserver/server.go:1408-1424 | at no moment has a port been released more often than mapped |
| PassivePorts.SetUpIsStandingOffer | internal/ftpserver/server.go:1009-1583 | over every run the session has set up the last port or address that was neither used, replaced nor closed since, and nothing if there is none |
| PassivePorts.TransferUsesStandingOfferIff | internal/ftpserver/server.go:1341-1377 | a transfer gets a data connection exactly when it connects and such an offer stands; on a passive one it is the connection that releases that port |
| ReadNoise.Noise.LogReadError | internal/ftpserver/server.go:178-221 | one call updates the table and logs as the step on values says, eviction included |
| ReadNoise.Noise.Evict | internal/ftpserver/server.go:197-203 | entries unseen for an hour go, and only in a table over a thousand entries |
| ReadNoise.EveryErrorIsAccountedFor | internal/ftpserver/server.go:178-221 | since a key's entry was created, errors seen = 1 + reported as suppressed + not yet reported |
| ReadNoise.LinesAreSpaced | internal/ftpserver/server.go:204-218 | two log lines of one key are at least the report interval apart, eviction or not |
| ReadNoise.LineIsLoggedIff | internal/ftpserver/server.go:178-221 | an error is logged exactly when it is the first of its key or the report interval has passed since the key's last line, eviction or not |
| UploadLock.StartKeepsInv | internal/httpapi/server.go:1694-1695 | a thread that begins to lock keeps the invariant |
| UploadLock.GoKeepsInv | internal/httpapi/server.go:1694-1714 | each line of lock and release keeps table, counters and holders exact |
| UploadLock.RunsKeepInv | internal/httpapi/server.go:1694-1714 | every interleaving of any number of threads keeps them exact |
| UploadLock.LocksAreExclusiveAndExact | internal/httpapi/server.go:1694-1714 | per key at most one thread is inside, counters equal the threads between their two lines, and when all are idle the table is empty |
| UploadLock.InsideIsExclusive | internal/httpapi/server.go:1704-1706 | two threads inside with one key are one thread |
| UploadLock.DeleteDropsNoLockInUse | internal/httpapi/server.go:1708-1711 | deleting an entry takes it from nobody |
| UploadLock.SomeoneCanGo | internal/httpapi/server.go:1694-1714 | no reachable state is a deadlock |
| ChunkUpload.PartFile.Copy | internal/httpapi/server.go:1645-1646 | at most the limit is read, and on an error any prefix may have been written |
| ChunkUpload.CopyChunk | internal/httpapi/server.go:1640-1657 | an oversized chunk is undone to the old offset, without overflow of 64-bit integers; otherwise the whole chunk is in the part |
| ChunkUpload.WriteExtendsPrefix | internal/httpapi/server.go:1640-1657 | the next bytes of a slice at the end of a prefix make a longer prefix |
| ChunkUpload.WriteKeepsPart | internal/httpapi/server.go:1640-1657 | of a chunk that runs past the end at most one byte comes to lie behind the source |
| ChunkUpload.UndoKeepsInv | internal/httpapi/server.go:1653-1656 | cutting back to the offset leaves a prefix |
| ChunkUpload.CommitKeepsInv | internal/httpapi/server.go:1590-1607 | what is committed is the whole source |
| ChunkUpload.JobMoveKeepsInv | internal/httpapi/server.go:1553-1607 | each step of a request keeps every part a prefix of its source, but for that one byte |
| ChunkUpload.MoveKeepsInv | internal/httpapi/server.go:1553-1607 | so does every step of locks, requests and the cleanup of stale parts |
| ChunkUpload.RunsKeepInv | internal/httpapi/server.go:1553-1607 | over every run |
| ChunkUpload.PartsArePrefixesAndCommitsWhole | internal/httpapi/server.go:1553-1607 | under any order, retries, duplicates, restarts, chunks past the end, failed copies and truncations, crashes and stale-part cleanup every committed file equals the source and every part is a prefix of it; a part is one byte longer exactly while a request that wrote this byte is at it, or after one ended without cutting it off |
| ChunkUpload.MoveIsRecorded | internal/httpapi/server.go:1553-1657 | each step keeps that record exact, restarts, cleanup and crashes included |
| ChunkUpload.SpoiltPartRefuses | internal/httpapi/server.go:1573-1576 | a part with one byte too many refuses every request |
| ChunkProgress.PartCanStaySpoilt | internal/httpapi/server.go:1653-1656 | such a part is reachable for every file |
| ChunkProgress.LongChunkIsUndone | internal/httpapi/server.go:1640-1657 | a chunk past the end, when no call fails, leaves every part as it was |
| ChunkProgress.LaterChunksKeepParts | internal/httpapi/server.go:1553-1588 | over every run: while a request with a positive offset is under way, none of its moves before the commit takes its part away or changes the bytes below its offset |
| ChunkProgress.ChunkIsStored | internal/httpapi/server.go:1562-1588 | a request for the slice at k, on a part that holds the first k bytes, in which no later call fails leaves a part with the first k bytes and the slice, or commits the file at its end; for k above 0 it does not matter what becomes of the conditional removal |
| ChunkProgress.WholeUploadCanCommit | internal/httpapi/server.go:1562-1607 | whatever earlier attempts left, a request that has the lock and sends the whole file from offset 0 can commit it |
| ChunkProgress.GoodMoveGoesWell | internal/httpapi/server.go:1553-1607 | each own move of such a request in which no call fails brings it further, at every point of any run |
| ChunkProgress.OthersLetItGoWell | internal/httpapi/server.go:1694-1714 | no move of a request for another part disturbs it |
| ChunkProgress.ChunksAreCommitted | internal/httpapi/server.go:1553-1607 | from any reachable state with no request at work, any split of a file into consecutive chunks, sent one after the other without a failing call, commits the whole file; only an old part must be gone or be removed by the first chunk |
| PartNames.ScopeDetermines | internal/httpapi/server.go:1554 | the scope string determines kind, owner, destination and size |
| PartNames.HashedDetermines | internal/httpapi/server.go:1633-1638 | scope, NUL and a safe id determine the upload |
| PartNames.PartNamesDoNotCollide | internal/httpapi/server.go:1633-1638 | with an injective hash two uploads share a part exactly when they are the same |
| PartNames.UsernamesHaveNoColon | internal/auth/auth.go:342-347 | valid usernames meet the assumption |
| PartNames.ColonInOwnerCollides | internal/httpapi/server.go:518 | the assumption is needed |
| RateLimit.Limiter.AllowKey | internal/ratelimit/ratelimit.go:37-49 | Allow is one step of the specification |
| RateLimit.Limiter.FailKey | internal/ratelimit/ratelimit.go:51-66 | Fail is one step of the specification |
| RateLimit.Limiter.ResetKey | internal/ratelimit/ratelimit.go:68-72 | Reset is one step of the specification |
| RateLimit.Limiter.TrimLocked | internal/ratelimit/ratelimit.go:74-84 | the deleting loop removes exactly the stale entries, at most once a minute |
| RateLimit.EntriesStayOk | internal/ratelimit/ratelimit.go:37-84 | FirstFailed <= LastSeen and LockedUntil <= LastSeen + lockout in every run |
| RateLimit.TrimmingIsInvisible | internal/ratelimit/ratelimit.go:74-84 | over every run the answers are those of a limiter that never deletes an entry |
| RateLimit.EntryCountsItsEpoch | internal/ratelimit/ratelimit.go:51-66 | the counter is the number of failures in the current epoch |
| RateLimit.EpochsFit | internal/ratelimit/ratelimit.go:51-66 | when failures follow granted attempts, those at the limit are a lockout apart and each epoch holds at most limit + window / (lockout + 1) |
| RateLimit.EpochStartsAreApart | internal/ratelimit/ratelimit.go:51-66 | without Reset, two different first failures that the limiter's entry for a key has during a run are more than a window apart, trimming included |
| RateLimit.FailuresPerEpochAreBounded | internal/ratelimit/ratelimit.go:37-66 | at most limit - 1 + ceil(window/lockout) failures in an epoch when each follows a granted Allow |
| RateLimit.EpochsAreTheLimitersOwn | internal/ratelimit/ratelimit.go:51-66 | the epochs counted are those of the limiter's own entries |
| RateLimit.AttemptIsAllowedIff | internal/ratelimit/ratelimit.go:37-66 | over every timed run the answer of Allow, from the calls alone: allowed exactly when the failures since the current epoch began are fewer than the limit, or the last of them is more than a lockout ago |
| RateLimit.EntriesAreRecent | internal/ratelimit/ratelimit.go:74-84 | after every attempt and every failure each entry of the table was seen within a window, a lockout and a minute |
| RateLimit.LockedKeyIsRefused | internal/ratelimit/ratelimit.go:37-66 | a locked key is refused until the lockout has passed, unless it is reset or fails more than a window after its first failure; failures within the window only prolong the lock |
| RateLimit.LateFailureLiftsLockIff | internal/ratelimit/ratelimit.go:51-66 | a failure during the lock lets the next attempt through exactly when the limit is above one and the failure is that late |
| RateLimit.LateFailureLiftsLock | internal/ratelimit/ratelimit.go:51-66 | a run from an empty limiter in which it happens |
| Share.SaveThenLoad | internal/share/share.go:316-357 | what is saved is what is loaded, however it is ordered |
| Share.Store.Load | internal/share/share.go:316-337 | links become those of the file |
| Share.Store.SaveLocked | internal/share/share.go:339-357 | the file becomes the links or keeps what it held |
| Share.Store.CreateLink | internal/share/share.go:101-154 | Create is one step: the first id no link has |
| Share.Store.SetUrlPathOf | internal/share/share.go:156-166 | SetURLPath is one step |
| Share.Store.DeleteLink | internal/share/share.go:189-197 | Delete is one step; running downloads stay counted |
| Share.Store.ReserveDownload | internal/share/share.go:225-237 | a reservation is one step, refused exactly when the link is not available |
| Share.Store.FinishDownload | internal/share/share.go:239-262 | a finish is one step, counting a completed download |
| Share.StepKeepsBoundIff | internal/share/share.go:101-154 | a step keeps count + active <= maximum exactly unless a new link inherits too many running downloads |
| Share.BoundAlwaysHolds | internal/share/share.go:101-288 | with ids never reused every interleaving, failed saves and reloads included, keeps the bound |
| Share.ReusedIdBreaksBound | internal/share/share.go:129-137 | the condition is needed: a run from an empty store that exceeds a limit |
| Share.ActiveIsReservationsMinusFinishes | internal/share/share.go:225-262 | active is accepted reservations minus accepted finishes |
| Share.CountIsCompletedFinishes | internal/share/share.go:239-262 | the counter is the number of completed finishes |
| Share.ExhaustedStaysExhausted | internal/share/share.go:277-288 | an exhausted link never becomes available again exactly when at every reload the file's copy is missing or exhausted too |
| Share.SavedReloadsAreExhausted | internal/share/share.go:316-357 | which is so when no save has failed before a reload |
| Share.UnsavedFinishIsForgotten | internal/share/share.go:258-262 | a finish whose save fails is forgotten by a reload |
| Share.ReservationIsGrantedIff | internal/share/share.go:225-288 | with ids never reused and reloads after saves, a reservation is granted exactly while the link as made is enabled, unexpired and, if limited, its limit is above the downloads completed and running, counted from the calls alone |
| Share.LinkStaysUntilRemoved | internal/share/share.go:156-197 | a link is there exactly until it is deleted, under the URL path that was set last |
| Activity.Store.NewFile | internal/activity/activity.go:63-76 | opening any file gives the window of its parsable lines, and a next id after every id in them |
| Activity.Store.Load | internal/activity/activity.go:189-215 | the loop over the lines |
| Activity.Store.LoadLine | internal/activity/activity.go:199-213 | one line of load keeps the window that of the whole file, whatever its id |
| Activity.Store.Append | internal/activity/activity.go:101-113 | the in-place shift keeps the buffer the last events of the history; the new id is above all others |
| Activity.Store.Recent | internal/activity/activity.go:115-133 | the newest-first filter of the window |
| Activity.ShiftedIsWindow | internal/activity/activity.go:105-108 | appending and shifting in place keeps the buffer the window of the whole history |
| Activity.ParsedIsKept | internal/activity/activity.go:189-231 | of any file that was written to, a reload parses what was readable before and still is, and the events whose writes were whole, or lack only their line end at the end of the file, with nothing unfinished before them |
| Activity.ReadableIsReached | internal/activity/activity.go:217-231 | that condition, event by event |
| Activity.TornWriteSpoilsNext | internal/activity/activity.go:217-231 | a torn write costs its own event and the next, and no more |
| Activity.RecentIsNewestFirst | internal/activity/activity.go:115-133 | that filter is the reversed window, filtered and cut |
| Activity.ReloadKeepsNextIdIff | internal/activity/activity.go:189-215 | whatever file the store was opened on: reloading keeps the next id exactly when nothing was added or the newest event reached the file, torn writes included |
| Activity.ReloadKeepsWindowIff | internal/activity/activity.go:189-215 | whatever file the store was opened on: reloading keeps the window exactly when every event of it can be read back, the loaded ones included |
| Activity.FileStaysIncreasing | internal/activity/activity.go:189-231 | the ids in the file keep increasing over torn writes and restarts |
| Activity.TornBeforeRestartSpoilsFirst | internal/activity/activity.go:189-231 | on a file with an unfinished line the first new event is lost too |
| Activity.DashboardStep | internal/httpapi/server.go:1884-1931 | one turn of the loop extends each capped list as its filter says |
| Activity.Record | internal/httpapi/server.go:1884-1931 | the loop body with its early exits is that turn; a last monitor event is replaced while its id is 0 |
| Activity.ActivityDashboard | internal/httpapi/server.go:1880-1933 | the loop computes each list as a filter of the recent events cut to the limit, and each last monitor event as the first one with an id, if there is one |
| Activity.FirstWithIdIsFirst | internal/httpapi/server.go:1897-1907 | when the newest event of a kind has an id, it is the one shown as the last |
| Activity.DashboardShowsHumanEvents | internal/httpapi/server.go:1880-1933 | for up to 2,000 events the event list is the first that are neither monitor nor maintenance events |
| Activity.MonitorTrafficHidesNothing | internal/httpapi/server.go:1880-1933 | adding monitor and maintenance traffic does not change it |
| Activity.SecurityIsSplit | internal/httpapi/server.go:1911-1925 | the security list shows the security events of people, the external list those by strangers and the mistakes list those by local users and administrators, all of them up to the cap |
| Activity.MonitorIsCounted | internal/httpapi/server.go:1893-1909 | every monitor event is counted once, as good or as bad |
| Auth.MergeGrants | internal/auth/auth.go:55-67 | a merge grants what one of the two grants |
| Auth.MergedGrants | internal/auth/auth.go:238-248 | merged permissions are those of the user or of one of the groups |
| Auth.MergeIgnoresOrder | internal/auth/auth.go:238-248 | they do not depend on order or repetition of groups |
| Auth.NormalizeIsIdempotent | internal/auth/auth.go:342-358 | normalizing twice is normalizing once and valid names are fixed |
| Auth.NormalizeKeeps | internal/auth/auth.go:349-358 | a name of letters, digits and marks is kept in order, in lower case |
| Auth.Store.PermissionsLocked | internal/auth/auth.go:238-248 | the loop computes the merged set |
| Auth.Store.IsLastAdminLocked | internal/auth/auth.go:321-333 | the loop finds out whether the user is the only enabled administrator |
| Auth.Store.UpsertUserIn | internal/auth/auth.go:170-200 | UpsertUser is one step, with the file the saved state or the one before |
| Auth.Store.DeleteUserIn | internal/auth/auth.go:202-214 | DeleteUser is one step |
| Auth.Store.BootstrapAdminIn | internal/auth/auth.go:103-133 | BootstrapAdmin is one step |
| Auth.Store.UpsertGroupIn | internal/auth/auth.go:227-236 | UpsertGroup is one step |
| Auth.StepKeepsAdmin | internal/auth/auth.go:170-214 | a step keeps an enabled administrator unless a group write clears an Admin bit |
| Auth.AnAdminAlwaysRemains | internal/auth/auth.go:103-214 | over every run one remains, in memory and in the file, whichever saves fail |
| Auth.GroupWriteKeepsAdminIff | internal/auth/auth.go:227-236 | exactly when a group write leaves an administrator |
| Auth.GroupWriteCanRemoveLastAdmin | internal/auth/auth.go:227-236 | it can leave none |
| Auth.AcceptedIff | internal/auth/auth.go:170-214 | a user write or removal is refused exactly when its input is unsound, or when there is an administrator and there would be none; an accepted one leaves the users it asks for |
| Auth.UserIsLastSet | internal/auth/auth.go:103-214 | over every run the store holds each user as last written, with the hash of the password set last since the name was last deleted, also when saves fail |
| Auth.GroupIsLastSet | internal/auth/auth.go:103-236 | and each group as last written |
| Auth.Store.Authenticate | internal/auth/auth.go:135-146 | Authenticate answers as the value-level log-in says, with the merged permissions |
| Auth.LogsInIff | internal/auth/auth.go:135-146 | after every run a log-in succeeds exactly when the user last set is enabled and its hash fits the password, and it is for that user |
| Auth.PasswordStaysValid | internal/auth/auth.go:135-214 | a password that an accepted call has set lets the user in until a call replaces it or disables or deletes the user |

## Left out

- Storage.Root.Retain: takes a new retained id as given; the code makes it from the time and the actor and does not check it.
- Storage.Root.ReplaceFile: takes a new retained id that neither path is in; the lock that serializes it with InstallFile is not modelled.
- Storage.Root.Restore: with overwriting, what the destination held is removed, by design.
- Storage.Root.Copy: for a copy upwards from a folder with a shown child of the name that leads back to it, which of the possible entries each place gets and the numbers of files and bytes are not stated; they depend on the order of the listing.
- Storage.Root.List: entries come in any order, not sorted by name.
- FtpTransfer.Session.Store: the resolver's answer is a parameter, and the destination is not one of the storage layer's own directories; nobody else changes the tree meanwhile.
- FtpTransfer.Session.CreateStagedUpload: names are arbitrary, not made from the time.
- RateLimit.FailuresPerEpochAreBounded: times are unbounded integers; sums beyond 64-bit nanoseconds are not modelled.
- PassivePorts.LedgerBalances: one session; another session may listen on a port again before the first data connection has released its mapping. After a failed handshake `conn` is a nil interface, so `conn.Close()` (internal/ftpserver/server.go:1389) panics, and as nothing recovers the process ends; the model says only that the port is not released.
- Share.SaveThenLoad: the JSON form is taken to keep links unchanged.
- Activity.Store.NewFile: lines are either parsed or skipped; over-long lines, which end the load with an error, are not modelled. Text that begins with an unfinished line is taken not to parse.
- ChunkUpload.PartsArePrefixesAndCommitsWhole: assumes that all requests for one part send what one file holds at their offsets, as far as it reaches, which the part's key does not enforce.
- Storage.Root.InstallFile: its last outcome leaves two hard-linked names of one file; a later rename of one onto the other does nothing in POSIX and keeps both, while the tree model removes the old name.
- Part of the tree model: symbolic links, permission bits, modification times, and writes through one hard link seen through another.
- The ignore patterns (`filepath.Match`) are a predicate on names, and the dashboard's event classifiers are parameters.
- FTP RNFR/RNTO, MKD, listings and the HTTP rename, zip and permanent-delete handlers: callers of the operations modelled here.
- Share passwords and token checks, password hashing and session cookies: cryptography behind a yes or no.
- Sockets, TLS, HTTP parsing, templates, NAT-PMP and UPnP, the Cloudflare parts, configuration, status and message texts: no invariant of their own.
