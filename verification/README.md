# Sync server: a verified model

The Blackglass sync server stores each vault as a log of numbered revisions, replays the
log to devices that connect, and then streams every new commit to them. This project
models that server in Dafny and proves what it promises over whole runs: devices converge
on the server's state and are let in when they come back, compaction changes nothing a
device ends up with, quotas are never over-committed, only those entitled change a vault,
and the database stays consistent.

Of what the server's own database verifier checks, these facts are proved after every
sequence of the modelled transactions, whatever the clock reads: revision uids and the byte counter,
each vault's size and version, one content location of the declared length per nonempty
revision, the number of vaults, memberships (at most 20 active rows a vault, one per user,
never the owner), both bounds on retired vault ids, active and retired ids apart, and
sessions (at most 1024, at most 64 open per user, none open of a disabled user, created
before they expire and not after they are revoked); once there is an active administrator
there always is one. Two facts the verifier checks are not kept, the bound on revoked
memberships and the order of a user's dates; Findings says exactly when. Types, text formats
and numeric ranges of columns are not modelled.

`dafny verify dfyconfig.toml` checks everything.

## How it is built

| file | what it holds |
|---|---|
| `Lists`, `Text`, `Words` | filters over tables, byte order on text, saturating words |
| `Revisions`, `Compaction` | the revision log, heads, snapshots, client mirrors; purging |
| `Store` | vault, revision and content tables with their transactions and invariant |
| `Pages` | paged queries against the one-shot lists; the deleted-files response |
| `Hub`, `HubInv`, `HubRun` | connections, broadcast rings and commits as a state machine, and its invariant |
| `Convergence`, `Resume`, `Reconnect`, `Delivery`, `Acknowledge` | what that invariant gives: convergence, also across reconnects, who is let in and becomes live, exactly-once, ordered acknowledgement |
| `Transfer`, `Durability` | uploads, stored content, pulls, and content through later runs |
| `Pruning`, `Members`, `MembersRun`, `VerifierRun`, `Markers` | capped tables: memberships and retired vault ids |
| `Epoch`, `Sessions` | recovery-epoch renaming; accounts and bearer sessions |
| `Database`, `DatabaseRun` | all transactions on the whole database and every run of them |
| `Access` | who may change what, and who never can again |
| `Connection` | the same transactions as statements that update tables in place and roll back, and a driver for any sequence of them |
| `Quota`, `QuotaRun` | the reservation ledger and every interleaving of it with the database |
| `InviteLimits` | the rate limiter of share invitations |
| `CanonicalJson` | the canonical text whose hash identifies a manifest |

Tables are sequences in primary-key order, so a query or a `DELETE` is a filter and an
`INSERT` appends the next uid. A transaction that fails leaves the tables as they were.
The clock is a parameter and may read anything; only the theorems that an expired token
stays dead and that a user's dates stay in order ask that it does not run backwards. New
vault ids and session tokens are drawn outside the set of all values ever drawn. Steps of
the hub are the critical sections of the commit-order lock and single socket messages, and a
connection may be cut at any moment.

The network, the file system, hashing and timeouts are outside. The verdict of the bounded
notice-size check on a restored row is a parameter, as is the JSON encoding of one item in
the deleted-files response.

## Findings

- Memberships. The database verifier accepts at most 64 revoked rows per vault, but removal
  does not prune. The bound every operation keeps is 83 rows, active and revoked together,
  and `VerifierRun.VerifierBoundExceeded` builds a run from an empty database, accounts and
  sessions included, that ends with 83 revoked rows.
  `Members.RemoveVerifies` gives the exact condition: a removal stays within 64 if and only
  if there were fewer than 64 before it.
- Dates of users. The database verifier rejects a user updated before being created, but
  every update writes the time as the clock reads. `VerifierRun.VerifierRejectsDates` builds
  a run from an empty database that creates a user at 100 and enables the user at 50, after
  the clock was set back. `Sessions.UpdateStamps` gives the exact condition: an update keeps
  the dates in order if and only if the clock does not read less than at the creation.
- Expired tokens. An expired token that is neither revoked nor cleaned up authenticates
  again if and only if the clock reads less than its expiry again
  (`Sessions.ValidUntilExpiry`). A revoked one never does, whatever the clock reads.
- Purging does not keep the list of deleted files. It empties it, so the list survives if
  and only if it was empty (`Compaction.PurgeEmptiesDeleted`, with an example in
  `Compaction.PurgeForgetsDeletedFile`).
- Cursor replay gives a returning client the live state if and only if its own mirror was
  right for every path without a commit since the version it announced
  (`Convergence.Converges`). A fresh client always gets it.

A remark on `Pages.ReplayAll` and `Pages.DeletedAll`: the queries clamp the page size to 1024
and the loops compare with the size itself. The server's sizes are the constants 16 and 64,
for which this makes no difference.

## Model

| member | source | states |
|---|---|---|
| Revisions.SnapshotIsLive | apps/server/src/database.ts:259-276 | loading the initial snapshot into an empty client mirror gives exactly the live head of every path |
| Revisions.ListedExact | apps/server-rust/src/db.rs:1810-1858 | a path is listed as deleted if and only if its last row is a tombstone with a live row before it |
| Revisions.SuppressedExact | apps/server-rust/src/db.rs:1810-1858 | rename suppression leaves out exactly the listed paths that some path of the live state names as the one it was renamed from |
| Compaction.PurgesKeepHeads | apps/server-rust/src/db.rs:1968-1970 | neither `purge` nor `purge-deleted` ever removes the head of a path |
| Compaction.CompactionKeepsReplay | apps/server-rust/src/db.rs:1968-1970 | for every cursor and every mirror, replaying the rows after the cursor gives the same mirror before and after any deletion that keeps heads |
| Compaction.CompactionKeepsSnapshot | apps/server-rust/src/db.rs:1793-1809 | such a deletion leaves the initial snapshot identical row for row, and the live state with it |
| Compaction.CompactionKeepsTotals | apps/server-rust/src/db.rs:2020-2030 | such a deletion leaves the vault's size and version as they were |
| Compaction.PurgeAbsorbs | apps/server-rust/src/db.rs:3023-3071 | purging twice is purging once, and purging tombstone history first makes no difference to a purge |
| Compaction.PurgeEmptiesDeleted | apps/server-rust/src/db.rs:1810-1858 | after either purge the deleted-files list is empty, hence unchanged if and only if it was empty |
| Compaction.PurgeForgetsDeletedFile | apps/server-rust/src/db.rs:1810-1858 | a file pushed and deleted is listed before a purge and not after it |
| Store.AddEmptyInv | apps/server-rust/src/db.rs:2185-2217 | a metadata push commits exactly the row asked for, every field of it, under the next uid; at once the path is gone from the live state if it was a deletion and shows the row otherwise, other vaults keep their rows, every table invariant holds; or nothing changes |
| Store.AddFileInv | apps/server-rust/src/db.rs:1661-1704 | so with a file push, whose content under that uid is the staged bytes |
| Store.PushExact | apps/server-rust/src/db.rs:2146-2217 | a push is carried out if and only if it is well formed, the caller may write, any version it names is the newest uid of the vault, its bytes fit both limits beside everything stored, and a uid is left |
| Store.RestoreInv | apps/server-rust/src/db.rs:1916-1959 | a restore commits a live copy of the row named, or for a tombstone of the newest live row of its path below it, with that row's bytes; it answers "nothing" if and only if the uid names no row of the vault or a tombstone without a live row below it; in a sound store it is never refused because the content size changed |
| Store.RestoreExact | apps/server-rust/src/db.rs:1916-1959 | with something to bring back it is carried out if and only if the caller may write, the bytes fit, a uid is left and the notice fits |
| Store.ListedRestorable | apps/server-rust/src/db.rs:1810-1858 | a tombstone at the end of its path is in the deleted list if and only if restoring it does not answer "nothing" |
| Store.PurgeInv | apps/server-rust/src/db.rs:1968-1970 | a purge leaves of the vault exactly the last row of every path, with its bytes, and every row of other vaults; vault rows, sizes and versions included, every invariant holds; it is refused exactly when the caller may not write |
| Store.PurgeDeletedInv | apps/server-rust/src/db.rs:3023-3071 | the offline purge removes exactly the rows before the tombstone of every path that ends in one, and nothing of a live file or another vault; the answer is the number of rows removed |
| Store.DeleteInv | apps/server-rust/src/db.rs:2114-2144 | deleting any rows keeps the byte counter equal to the sum of the rows, drops content with its row and leaves the content of the others |
| Store.CreateInv | apps/server-rust/src/db.rs:1142-1167 | a created vault is empty, its owner's and beside all others; it is created if and only if the caller may, fewer than 100 exist and the id is new; every invariant holds |
| Store.DropVaultInv | apps/server-rust/src/db.rs:1472-1497 | deleting a vault with its cascades keeps every invariant, and every other vault's record, rows and bytes |
| Store.ReplaceVaultInv | apps/server-rust/src/db.rs:1511-1555 | migration leaves the new vault empty under the same owner, and every other vault's record, rows and bytes as they were |
| Store.VersionBound | apps/server-rust/src/db.rs:4316-4343 | a vault's version is the largest uid of its rows, 0 without rows, and at most the sequence |
| Store.SizeIsLive | apps/server-rust/src/db.rs:2020-2030 | a vault's size is the bytes of what a fresh client is sent of it |
| Pages.ReplayListIsOneShot | apps/server/src/database.ts:246-276 | whatever was committed after the boundary, the paged queries select exactly the un-paged change list up to the boundary, and the initial snapshot of the table up to it |
| Pages.ReplayAll | apps/server-rust/src/server.rs:2158-2200 | for any page size up to 1024 the loop sends the whole list in order without gap or duplicate, above that its first 1024 rows |
| Pages.SendPage | apps/server-rust/src/server.rs:2175-2196 | sending a page row by row leaves the cursor at its last row |
| Pages.AppendPage | apps/server-rust/src/server.rs:2690-2716 | appending a page writes exactly its items, or the whole response would not fit |
| Pages.DeletedAll | apps/server-rust/src/db.rs:1810-1858 | for every page size up to 1024 the pages until a short one, one after another, are the un-paged deleted list without gap or duplicate, above that its first 1024 rows |
| Pages.DeletedPages | apps/server-rust/src/server.rs:2680-2721 | the response built page by page is the complete one exactly when that fits, for every page size up to 1024 |
| Pages.DeletedResponse | apps/server-rust/src/server.rs:2662-2729 | the answer is the complete deleted list when that fits the byte limit and a refusal exactly otherwise |
| HubRun.StepInv | apps/server-rust/src/server.rs:1791-1822 | every step of any connection, commit, purge, offline purge of deleted files, delete or migration keeps the protocol invariant |
| HubRun.BootRun | apps/server-rust/src/server.rs:2134-2208 | the protocol invariant holds after every run from an empty server, the unreachable "skipped originating commit" error included |
| HubInv.ReceivedOk | apps/server-rust/src/server.rs:1791-1822 | receiving one event keeps mirror, queue and output in step with the log and never reaches the skipped error |
| Convergence.Converges | apps/server-rust/src/server.rs:2134-2208 | at every moment of every run, an open connection's mirror overlaid with the unsent replay rows and then the queued events is the live state, if and only if the client came with a mirror right for the paths without later commits |
| Convergence.DrainedIsExact | apps/server-rust/src/server.rs:1791-1822 | after `ready` with nothing queued the vault exists and a fresh client's mirror is exactly the live state; a returning client's is exactly when it came sound |
| Resume.MirrorSound | apps/server-rust/src/server.rs:2158-2200 | at any moment of a connection that came sound, mid-replay included, the mirror is right for every path without a commit above the last uid delivered |
| Resume.SoundRun | apps/server-rust/src/server.rs:2134-2144 | that stays so through every later run, whatever is committed or purged meanwhile |
| Resume.Resumes | apps/server-rust/src/server.rs:2134-2208 | a device cut off at any moment that comes back any time later with its mirror and its last delivered uid came sound again, and what is on its way completes its mirror to the live state |
| Resume.ManyCuts | apps/server-rust/src/server.rs:2134-2208 | so over any sequence of runs with a cut at the end of each: what is on its way to the last connection completes the device's mirror to the live state |
| Reconnect.LetIn | apps/server-rust/src/server.rs:2134-2156 | `init` lets in exactly fresh clients and those that announce no version above the last commit ever made to the vault, and begins at what they announced |
| Reconnect.ReplayEnds | apps/server-rust/src/server.rs:2158-2208 | by the connection's own steps every replay ends in `ready`, having sent exactly the unsent rows in order |
| Reconnect.BecomesLive | apps/server-rust/src/server.rs:1791-1822 | at any moment the own steps of an open connection that has not lagged make it live with nothing queued or awaited, and its mirror is then the live state if and only if the client came sound |
| Reconnect.CatchesUp | apps/server-rust/src/server.rs:2134-2208 | whoever is let in becomes live; a fresh client then has exactly the live state, a returning one if and only if it came sound |
| Reconnect.ComesBack | apps/server-rust/src/server.rs:2134-2208 | a device cut off at any moment of any run never knows more than the server, so it is let in whenever it comes back while its vault exists, and its own steps make it live with exactly the live state |
| Reconnect.MutateWaits | apps/server-rust/src/server.rs:2439-2471 | an accepted command is stored as one commit, logged and awaited by its connection; a refused one changes nothing |
| Reconnect.AckArrives | apps/server-rust/src/server.rs:2888-2940 | its own receives then bring the connection exactly the notices due, its own and `ok` |
| Delivery.ExactlyOnce | apps/server-rust/src/server.rs:199-220 | uids rise strictly across replay and live notices, the live ones are precisely the commits since the boundary up to the last delivered, the queue of an unlagged open connection holds precisely the rest, and in no run is the topic of an open connection pruned |
| Delivery.AckTurn | apps/server-rust/src/server.rs:2888-2940 | a waiting connection can always receive, and each turn brings its commit nearer, acknowledges it right behind its notice, or closes |
| Delivery.AckNotDelayed | apps/server-rust/src/server.rs:2888-2940 | no step of anyone else puts more notices ahead of the awaited one |
| Delivery.AckAfterEarlierNotices | apps/server-rust/src/server.rs:2888-2940 | in every run an `ok` comes after the notices of its commit and of every earlier commit since the boundary |
| Acknowledge.AcknowledgeCommit | apps/server-rust/src/server.rs:2888-2940 | while commits of others go on arriving, and the vault may be deleted, the loop ends; unless the receiver lags and is closed it has sent exactly the outstanding earlier notices in order, its own, then `ok` |
| Acknowledge.AckTerminates | apps/server-rust/src/server.rs:2888-2940 | in every interleaving a waiting connection turns its loop at most as often as there were notices up to its commit |
| Transfer.Upload.constructor | apps/server-rust/src/server.rs:2211-2390 | a pending upload starts empty with its declared size and pieces |
| Transfer.Upload.Chunk | apps/server-rust/src/server.rs:2392-2459 | a chunk is refused exactly when it is too large or exceeds the declaration, and completes the upload exactly when all chunks together fit it; what is staged is what was sent |
| Transfer.UploadAll | apps/server-rust/src/server.rs:2392-2459 | a client's chunks end in a complete upload exactly when the declared number of them has the declared size, whatever the chunking |
| Transfer.Pull | apps/server-rust/src/server.rs:2530-2563 | the frames sent are always a prefix of the content, at most 2 MiB each, and a completed pull is all of it in exactly the declared pieces |
| Transfer.AddFileStores | apps/server-rust/src/db.rs:1709-1774 | a stored upload is found under its uid with exactly the staged bytes |
| Transfer.RestoreCopies | apps/server-rust/src/db.rs:1939-1946 | a restored revision is read back with the path named and the metadata, size and bytes of the live row named, or of the newest live row of the path below the tombstone named |
| Durability.StoredForGood | apps/server-rust/src/db.rs:1709-1774 | after any run of transactions a uid denotes the same bytes or no row |
| Durability.PullThroughRuns | apps/server-rust/src/server.rs:2530-2563 | a pull that reads the tables after arbitrary transactions sends nonempty frames of at most 2 MiB that are a prefix of the stored bytes, all of them when it completes, and it completes if the revision is still there at every read |
| Durability.UploadAndPull | apps/server-rust/src/server.rs:2392-2563 | uploaded in any chunking, stored by a transaction on any sound database and pulled while any transactions go on: accepted exactly when the chunks fit the declaration and the store admits it, the frames are bounded and a prefix of the uploaded bytes, a completed pull is all of them in the declared pieces, and it completes unless the revision goes meanwhile |
| Members.InviteInv | apps/server-rust/src/db.rs:1291-1383 | inviting keeps at most 20 active rows per vault, 83 in all, one active row per user and no owner as member, and leaves fewer than 64 revoked when it inserts |
| Members.InviteExact | apps/server-rust/src/db.rs:1320-1382 | the invited user ends up with an active row if and only if that is not the owner and the user is a member already or there is room; the only row added is theirs, no other active row and no other vault's row changes |
| Members.PrunedOldest | apps/server-rust/src/db.rs:1346-1352 | the prune removes only revoked rows of the vault, and only ones revoked no later than every one it keeps |
| Members.RemoveInv | apps/server-rust/src/db.rs:1385-1418 | a collaborator leaves if and only if that uid is an active row of theirs in the vault and the owner or the collaborator asks; exactly that row is revoked, and the invariant holds |
| Members.RemoveVerifies | apps/server-rust/src/db.rs:4006-4070 | a removal stays within the verifier's 64 revoked rows if and only if fewer were there before |
| Members.MigrateCarries | apps/server-rust/src/db.rs:1546-1551 | migration carries exactly the active rows, uids and users unchanged, and no other vault's rows move |
| Members.MigrateInv | apps/server-rust/src/db.rs:1511-1555 | migration keeps the membership invariant under the new id |
| VerifierRun.VerifierBoundExceeded | apps/server-rust/src/db.rs:4006-4070 | from an empty database a run of account, session, vault, invitation and removal transactions reaches 83 revoked rows of one vault |
| VerifierRun.VerifierRejectsDates | apps/server-rust/src/db.rs:4106-4135 | from an empty database a run with the clock set back leaves a user updated before being created |
| Markers.RetireInv | apps/server-rust/src/db.rs:2821-2856 | for any clock values retiring a vault id keeps 512 markers per owner and 8192 overall, marks the id with its owner and time, adds nothing else and drops no other owner's marker |
| Markers.RetireRoom | apps/server-rust/src/db.rs:2821-2856 | it is refused exactly when 8192 markers exist and the owner has fewer than 512 of them |
| Markers.KeptNewest | apps/server-rust/src/db.rs:2833-2845 | pruning touches only that owner's markers and keeps the newest |
| Markers.RetireAllInv | apps/server-rust/src/db.rs:2771-2805 | retiring every vault at once keeps both bounds and marks exactly the old ids besides what was marked |
| Epoch.RenameInv | apps/server-rust/src/db.rs:2800-2816 | giving one vault a new id keeps every table invariant |
| Epoch.RenameAllRotates | apps/server-rust/src/db.rs:2800-2816 | after the loop every vault has its new id with owner, settings, size, version and whole history as before, and content is untouched |
| Epoch.DrawMoves | apps/server-rust/src/db.rs:2757-2768 | new ids are pairwise different and none is an active or retired id |
| Sessions.DoSolid | apps/server-rust/src/db.rs:496-621 | at any clock value every account and session operation keeps at most 256 users, 1024 sessions and 64 unrevoked sessions per user, no unrevoked session of a disabled user, and every session created before it expires and not after it is revoked |
| Sessions.StepInv | apps/server-rust/src/db.rs:496-621 | so does every step of a run, in which sessions are only ever stored under issued tokens |
| Sessions.IssueCount | apps/server-rust/src/db.rs:777-817 | at any clock value issuing a session keeps every user at no more than 64 unrevoked ones |
| Sessions.IssueExact | apps/server-rust/src/db.rs:777-817 | a session is issued if and only if the user is active and fewer than 1024 sessions, and 64 of the user, are open; the token then authenticates that user for exactly its lifetime, and exactly the open sessions stay beside it |
| Sessions.BootRun | apps/server-rust/src/db.rs:777-817 | these facts hold after every run from an empty database, at any clock values |
| Sessions.NeverValidAgain | apps/server-rust/src/db.rs:859-959 | with a clock that does not go back, a token that stopped authenticating never authenticates again, whatever is renewed, enabled or issued |
| Sessions.RevokedForGood | apps/server-rust/src/db.rs:496-621 | disabling a user, changing the role or a credential, or revoking the user's sessions ends every token of that user for good, whatever the clock reads later |
| Sessions.RevokesExactly | apps/server-rust/src/db.rs:496-621 | disabling, a role or credential change and each revocation end exactly the sessions they name, and no other operation but issue, renewal and deletion touches a session |
| Sessions.UserExact | apps/server-rust/src/db.rs:458-582 | each update changes exactly the field it is for and the date, of that user alone, unless the guard for the last administrator stops it; a new user is active, while there is room |
| Sessions.ValidUntilExpiry | apps/server-rust/src/db.rs:859-885 | a stored, unrevoked token authenticates at a time if and only if that is before its expiry, so an expired one only while the clock is set back |
| Sessions.UpdateStamps | apps/server-rust/src/db.rs:458-582 | after an update a user was updated no earlier than created if and only if the clock does not read less than at the creation; no operation changes another user's record |
| Sessions.ClockBackUnstamps | apps/server-rust/src/db.rs:530-543 | created at 100 and enabled at 50, a user has dates out of order |
| Sessions.RenewalExtends | apps/server-rust/src/db.rs:886-1064 | a renewal gives a valid token its full lifetime again if and only if access is granted and half of the lifetime or more is used up, and otherwise changes nothing; for any lifetime, saturating sums included, it never shortens a session and touches no other |
| Sessions.AdminRemains | apps/server-rust/src/db.rs:496-582 | no operation removes the last active administrator |
| Sessions.RunAdmin | apps/server-rust/src/db.rs:496-582 | nor does any run of them |
| DatabaseRun.StepConsistent | apps/server-rust/src/db.rs:4104-4343 | at any clock value every transaction keeps all table, membership, marker and session invariants, session counts and dates included, and active and retired ids apart |
| DatabaseRun.StepSound | apps/server-rust/src/db.rs:4104-4343 | so does every step of a run, and an id appears only when drawn and is marked only when it vanishes |
| DatabaseRun.BootSound | apps/server-rust/src/db.rs:4104-4343 | from an empty database every sequence of transactions, at any clock values, keeps size = sum of live file heads, version = largest uid, one content location of the declared length per nonempty revision, both marker bounds, active and retired ids apart, and the session bounds |
| DatabaseRun.BootSessions | apps/server-rust/src/db.rs:4397-4408 | at whatever time one counts and by any clock, no user has more than 64 open sessions |
| DatabaseRun.RunAdmin | apps/server-rust/src/db.rs:4080-4086 | once there is an active administrator every run of transactions leaves one |
| DatabaseRun.RunStamps | apps/server-rust/src/db.rs:4106-4135 | if the clock does not go back, every run keeps each user updated no earlier than created |
| DatabaseRun.NeverAuthorizedAgain | apps/server-rust/src/db.rs:2087-2112 | if the clock does not go back, a token that stopped authenticating never authorizes a transaction again |
| DatabaseRun.RotateStep | apps/server-rust/src/db.rs:2739-2819 | a recovery either fails whole or renames every vault, marks every old id, and leaves no membership and no session |
| DatabaseRun.RotateRoom | apps/server-rust/src/db.rs:2769-2798 | a recovery is carried out if and only if the markers of all vaults fit the 8192 beside those there are, less what each owner then has above 512; it answers the number of vaults |
| DatabaseRun.OldIdsRejected | apps/server-rust/src/db.rs:2735-2739 | no later run brings back an id, and so a cursor, from before a recovery |
| DatabaseRun.GoneForGood | apps/server-rust/src/db.rs:2821-2856 | a vault id that is gone never names a vault again |
| DatabaseRun.RunFollows | apps/server-rust/src/db.rs:2185-2217 | over every run uids are never reused, and a surviving row and its bytes are what they were |
| DatabaseRun.RunContinues | apps/server-rust/src/db.rs:1291-1418 | over every run a share uid keeps its user and, once revoked, is never active again |
| DatabaseRun.ConditionalExact | apps/server-rust/src/db.rs:2219-2235 | a conditional write passes its version check if and only if nothing was committed to the vault since the version it names was read |
| DatabaseRun.ConditionalOnce | apps/server-rust/src/db.rs:2193-2211 | over any run at most one conditional write per vault and version is accepted |
| Access.UnauthorizedExact | apps/server-rust/src/db.rs:2049-2112 | a well-formed push, restore or purge is refused as unauthorized if and only if the token is not a stored, unrevoked, unexpired session of that active user, or the user neither owns the vault nor has an unrevoked membership row of it |
| Access.RefusedUnchanged | apps/server-rust/src/db.rs:2049-2112 | without these a write changes nothing at all |
| Access.CommitsAuthored | apps/server-rust/src/db.rs:2193-2211 | a write that changes anything commits one row to the vault it names, by its caller and at its time, visible there at once |
| Access.CreateExact | apps/server-rust/src/db.rs:1142-1167 | creating takes a signed-in user, room and a new id, and the vault is that user's and empty; otherwise nothing changes |
| Access.DeleteExact | apps/server-rust/src/db.rs:1472-1497 | a vault is deleted if and only if its owner, signed in, asks and its marker fits; it goes with rows and members, is marked, and every other vault is left alone |
| Access.MigrateExact | apps/server-rust/src/db.rs:1511-1555 | so with migration, which leaves an empty vault of the same owner with exactly the active members |
| Access.InviteExact | apps/server-rust/src/db.rs:1291-1383 | only the owner, signed in, invites, and only an active user; who ends up a member, and every refusal, exactly |
| Access.RemoveExact | apps/server-rust/src/db.rs:1385-1418 | a collaborator is removed if and only if the owner or that collaborator, signed in, asks |
| Access.StepOwner | apps/server-rust/src/db.rs:1142-1555 | no transaction changes the owner of a vault |
| Access.RunStranger | apps/server-rust/src/db.rs:2062-2085 | whoever has no access to a vault gets none in any run but by an invitation to it |
| Access.RemovedStaysOut | apps/server-rust/src/db.rs:1385-1418 | after a collaborator was removed, whatever happens, no write of theirs to the vault is carried out unless an invitation came between |
| Connection.Sqlite.constructor | apps/server-rust/src/db.rs:2114-2144 | a new database is empty |
| Connection.Sqlite.DeleteRows | apps/server-rust/src/db.rs:2114-2144 | deleting rows takes their bytes off the counter and their content with them |
| Connection.Sqlite.Compact | apps/server-rust/src/db.rs:1968-1970 | delete and refresh together are the compaction of the tables, with the number of rows deleted |
| Connection.Sqlite.CommitRevision | apps/server-rust/src/db.rs:2193-2211 | inserting first and checking uid and content after, with rollbacks, commits exactly the admitted row or nothing |
| Connection.Sqlite.AddEmptyRevision | apps/server-rust/src/db.rs:1605-1626 | the statements with their rollbacks are the atomic metadata push |
| Connection.Sqlite.AddFileRevision | apps/server-rust/src/db.rs:1661-1704 | the statements with their rollbacks are the atomic file push |
| Connection.Sqlite.RestoreRow | apps/server-rust/src/db.rs:1934-1958 | copying the source row and its content, with every rollback, is the atomic restore of one row |
| Connection.Sqlite.RestoreRevision | apps/server-rust/src/db.rs:1916-1959 | the statements with their rollbacks are the atomic restore |
| Connection.Sqlite.PurgeVault | apps/server-rust/src/db.rs:1968-1970 | the statements are the atomic purge |
| Connection.Sqlite.PurgeDeletedHistory | apps/server-rust/src/db.rs:3034-3071 | the statements are the atomic purge of deleted files, with the number of rows removed |
| Connection.Sqlite.CreateVault | apps/server-rust/src/db.rs:1142-1167 | the statements are the atomic creation |
| Connection.Sqlite.RetireIdentity | apps/server-rust/src/db.rs:2821-2856 | pruning, counting and inserting succeed exactly when the marker fits, and then leave the pruned table with it |
| Connection.Sqlite.DropRows | apps/server-rust/src/db.rs:1489-1493 | retiring and deleting drop the vault, or fail exactly when the marker does not fit |
| Connection.Sqlite.DeleteVault | apps/server-rust/src/db.rs:1472-1497 | the statements with their rollback are the atomic deletion |
| Connection.Sqlite.ReplaceRows | apps/server-rust/src/db.rs:1530-1553 | inserting, moving the active members, retiring and deleting replace the vault, or fail exactly when the marker does not fit |
| Connection.Sqlite.MigrateVault | apps/server-rust/src/db.rs:1511-1555 | the statements with their rollback are the atomic migration |
| Connection.Sqlite.InviteRow | apps/server-rust/src/db.rs:1320-1382 | pruning first and checking capacity after, with the prune undone on a failure, is the atomic insertion |
| Connection.Sqlite.InviteCollaborator | apps/server-rust/src/db.rs:1291-1383 | the statements with their rollbacks are the atomic invitation, refusals included |
| Connection.Sqlite.RemoveCollaborator | apps/server-rust/src/db.rs:1385-1418 | the statements are the atomic removal |
| Connection.Sqlite.IssueSession | apps/server-rust/src/db.rs:777-817 | a refused issue rolls back its cleanup; an accepted one adds an open session of the given lifetime |
| Connection.Sqlite.RenewSession | apps/server-rust/src/db.rs:886-1064 | Some exactly for a valid token with access, and a change only when renewed |
| Connection.Sqlite.DisableUser | apps/server-rust/src/db.rs:496-543 | disabling and revoking happen together, and exactly when it is not the last active administrator |
| Connection.Sqlite.SetUserRole | apps/server-rust/src/db.rs:545-582 | the role change and the revocation happen together, and exactly when it does not demote the last active administrator |
| Connection.Sqlite.PruneOwners | apps/server-rust/src/db.rs:2772-2793 | the loop over owners prunes each to the room left, or fails when an owner retires more than 512 |
| Connection.Sqlite.MoveVaults | apps/server-rust/src/db.rs:2799-2816 | the loop marks every old id and renames every vault |
| Connection.Sqlite.RotateAll | apps/server-rust/src/db.rs:2769-2819 | the transaction with its rollback is the atomic rotation |
| Connection.Sqlite.RotateRecoveryEpoch | apps/server-rust/src/db.rs:2739-2819 | on a consistent database the ids drawn name every vault once and are fresh, the result is the atomic rotation with them, and the database is consistent again |
| Connection.Sqlite.Apply | apps/server-rust/src/db.rs:2185-2217 | the statements of any operation, with its rollbacks, are its transition on values |
| Connection.Sqlite.Execute | apps/server-rust/src/db.rs:4104-4343 | every transaction finds a consistent database and leaves one |
| Connection.Sqlite.ExecuteAll | apps/server-rust/src/db.rs:4104-4343 | operations executed one after another end where the run of them ends, consistent |
| Quota.Reservations.constructor | apps/server-rust/src/server.rs:1507-1516 | the counters start as the sums of no live reservation |
| Quota.Reservations.Reserve | apps/server-rust/src/server.rs:1531-1566 | a reservation is granted if and only if it fits both limits beside everything committed and every live reservation, and the counters stay the sums of the live ones |
| Quota.Reservations.Drop | apps/server-rust/src/server.rs:1575-1589 | dropping a live reservation gives back exactly its bytes, never below zero, and the counters stay the sums of the ones left |
| Quota.GrantedExactly | apps/server-rust/src/server.rs:1531-1566 | the comparisons on the counters are exactly the condition that the bytes fit beside everything committed and live |
| Quota.ReserveBalanced | apps/server-rust/src/server.rs:1531-1566 | after a reservation the ledger is still exactly the sum of the live reservations |
| Quota.ReleaseBalanced | apps/server-rust/src/server.rs:1575-1589 | after a release too, with no empty owner entry, and the saturating subtraction never saturates |
| Quota.ReserveRelease | apps/server-rust/src/server.rs:1531-1589 | releasing what was reserved restores the ledger |
| Quota.EffectiveLimitExact | apps/server-rust/src/server.rs:2850-2866 | over all nonnegative 64-bit values the advertised limit leaves room for an upload if and only if a reservation of it would succeed |
| QuotaRun.StepInv | apps/server-rust/src/server.rs:2348-2371 | every reservation, cancellation, upload, restore and other transaction keeps: if anything is reserved, committed plus reserved is within the limit, globally and per owner |
| QuotaRun.NeverOverCommitted | apps/server-rust/src/server.rs:2439-2471 | over every interleaving, a reservation for a vault deleted meanwhile included, a database within its limits stays within them, reservations included |
| QuotaRun.Serve | apps/server-rust/src/server.rs:2348-2371 | events handled one after another on the counters in memory and the database end where the run of them ends, the counters the sums of the reservations still live |
| QuotaRun.ReservationHonoured | apps/server-rust/src/db.rs:2146-2183 | the commit-time quota check never refuses an upload that holds its reservation |
| QuotaRun.RestoreLimitsValid | apps/server-rust/src/server.rs:2752-2760 | the limits a restore is given are never negative |
| QuotaRun.UsageIsOwnerSum | apps/server-rust/src/db.rs:2031-2047 | the counter maintained by the triggers is the sum of the owners' totals |
| InviteLimits.Limits.constructor | apps/server-rust/src/server.rs:345-352 | the limiter starts with no attempt |
| InviteLimits.Limits.Expire | apps/server-rust/src/server.rs:361-367 | the loop drops exactly the attempts an hour old or older |
| InviteLimits.Limits.Admit | apps/server-rust/src/server.rs:353-414 | the queue stays exactly the admitted attempts of the last hour, and an attempt is admitted if and only if the hour with it satisfies every limit |
| InviteLimits.AdmitExact | apps/server-rust/src/server.rs:398-405 | the comparisons made are exactly the condition that one more attempt fits |
| InviteLimits.EveryHourFits | apps/server-rust/src/server.rs:340-415 | no hour, wherever it starts, holds more admitted attempts, sources, users or targets than the limits allow |
| CanonicalJson.EscapedReads | apps/server-rust/src/publish.rs:535-535 | an escaped string ends where it ends: equal texts come from equal strings |
| CanonicalJson.SortFields | apps/server-rust/src/publish.rs:544-546 | sorting keeps the fields and puts their keys in strictly rising order |
| CanonicalJson.Reads | apps/server-rust/src/publish.rs:530-561 | the text of a value before a delimiter can be read in one way only |
| CanonicalJson.SamePrints | apps/server-rust/src/publish.rs:530-561 | values equal up to key order print alike |
| CanonicalJson.CanonicalIdentity | apps/server-rust/src/publish.rs:530-561 | two values have the same text if and only if they are equal up to key order |

## Left out

- HTTP routing, cookies, TLS, metrics, configuration parsing and the administration pages.
- SQLite itself: durability, the write-ahead log, backups and schema verification. A transaction is atomic.
- Password and content hashing, random sources: ids and tokens are fresh values, and the limiter's target digests stand for the targets.
- Timeouts, idle deadlines, session expiry during a connection and back-pressure: a connection may be cut at any moment.
- `UserConcurrency`, `SourceLimits` and `AdminAuthFailures`: the first is a counter with an easy bound, the other two evict entries and promise no exact window.
- The size check of a committed notice after its commit: the checks before the commit bound the same text.
- Foreign-key checks other than the cascades, and the legacy `content` column except as a place where old rows keep their bytes.
- A staged upload is a byte sequence: the partial write of a file and the copy loop into the database are one assignment.
- Restoring from a backup file: only the transaction that gives vaults new ids. Recovery from a stale backup, which also disables every user of the copy, is outside.
- Members.InviteInv: the invited user is a number; finding it by canonical email address is outside.
- Sessions.DoSolid: an issued lifetime is positive and its expiry within 64 bits, which the accepted range of configured lifetimes (300 seconds to a year) ensures at any realistic time.
- DatabaseRun.BootSound: types, text formats and numeric ranges of columns, which the database verifier also checks, are not modelled.
