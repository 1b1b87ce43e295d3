# Redis internals, verified

A Dafny model of the parts of Redis whose correctness rests on several functions
together, and proofs of what they promise.

- **Append-only file and BACKUP** (`Aof*.dfy`). The multi-part log: manifest, BASE, INCR
  and history files, the buffer in memory, the rewrite child, and the BACKUP machine that
  pins a snapshot and an INCR. `AofServer.Server` has the server's fields and one method
  per operation; every moment between two disk operations is recorded as a crash point
  with the dataset it owes. `AofRuns.Run` is the theorem over whole runs, in which a crash
  may come inside any operation; `AofHazards` says what each of its exceptions costs.
  `AofStream` is the text of a file and its loader, `AofFlush` the writing of the buffer,
  and `AofBytes` joins them to the protocol.
- **ACL command rules** (`Acl*.dfy`). A bitmap and a compacted text of rules that must
  replay to the same bitmap, the in-place edit of the text, and its splitting.
- **Background jobs** (`Bio*.dfy`). Three workers, a completion list, a wake-up pipe and a
  shared condition variable, as interleaved steps.
- **Slot migration** (`SlotRouting.dfy`, `SlotMigration.dfy`). Each node decides for itself;
  two nodes, an operator, clients and MIGRATE behave as one store.
- **Blocked clients** (`Blocked*.dfy`). The two-way index of clients and keys, the ready
  queues, and the walk over a list that changes under the walker.
- **Cuckoo Heavy Keeper** (`Chk*.dfy`), **bit commands** (`Bit*.dfy`), **slot ranges**
  (`SlotRanges.dfy`, `SlotText.dfy`) and the **linked list** (`AdList.dfy`).

Where the code keeps state in place the model is a class or a method with the same loops;
the specification is a pure function or invariant beside it, and the lemmas are about that.
A class refers to its specification through a `View`, a ghost copy or a represented value.

## What turned out not to hold

Each of these has the exact condition under which it fails; most also have a concrete run or
value.

- A rewrite forked after a short forced flush recovers the buffered entries twice
  (`AofHazards.RewriteCycle`, `AofHazards.ShortFlushRun`).
- The rotation at BACKUP SEAL keeps the selected database; the new INCR then routes
  commands wrongly unless that database is 0 or none (`AofHazards.SealCycle`,
  `AofHazards.SealRun`, `AofLog.FreshFileRoutesIff`).
- Failing or aborting a backup that owns the AOF directory deletes the live append-only
  files if the user has turned AOF on in between (`AofHazards.AbortIff`,
  `AofHazards.AbortAfterEnable`).
- An INCR that stays listed although it was rewritten (AOF off, descriptor left open)
  changes what is recovered unless it replays to nothing (`AofHazards.StaleIncrIff`,
  `AofHazards.StaleIncrRun`).
- AOF turned on inside EXEC while a child forked with AOF off is running can end with AOF on
  and calls missing on disk (`AofHazards.GapCycle`, `AofHazards.GapRun`).
- A start with no INCR listed opens INCR 1 again. If that is a leftover with commands they
  are replayed on top; if it is listed as history it is deleted although it is now live
  (`AofRestart.StartKeepsIff`, `AofHazards.RestartRun`). With automatic deletion off, history
  with numbers still to come is met later (`AofHazards.YoungHistoryLoses`).
- A half-written command inside MULTI is cut, but the MULTI before it stays, and what is
  appended afterwards is lost (`AofStream.CutIsCleanIff`, `AofStream.AppendedAfterCutIff`).
- An ACL first argument with a blank or a quote is accepted, and then stops the server or
  changes the selector at the next replay (`AclSelector.LoggedTextReplaysIff`).
- A connection lost during MIGRATE can leave a key on both nodes
  (`SlotMigration.LostConnectionIff`, `SlotMigration.LostConnectionRun`).
- Slot range parsing cuts numbers to sixteen bits (`SlotText.PieceIff`), and validation can
  miss a range the wrong way round (`SlotRanges.ValidationRightIff`,
  `SlotRanges.BackwardRangeAccepted`).

## Model

| member | source | states |
|---|---|---|
| AofLog.FeedOneReplays | redis-stable/src/aof.c:1661-1697 | feeding one call appends entries that replay to exactly that call, and the writer's idea of the selected database still agrees with the file |
| AofLog.FeedAllReplays | redis-stable/src/aof.c:1661-1697 | any sequence of calls fed while the writer agrees with the file replays to that sequence, in the right databases |
| AofLog.FreshFileRoutesIff | redis-stable/src/aof.c:1674-1680 | a file opened while the writer remembers a database replays every future correctly if and only if nothing is remembered or it is the database a fresh client starts in; the seal rotation (line 3731) keeps the remembered database, the rewrite rotation (line 3216) resets it |
| AofLog.SnapshotThenLog | redis-stable/src/aof.c:3847-3935 | for every meaning of commands, loading a snapshot and replaying a log builds what executing all calls builds |
| AofDisk.MarkRewrittenIncrAsHistory | redis-stable/src/aof.c:506-536 | the backward loop over the INCR list moves exactly the rewritten files to the history, keeps the open one, and keeps every other entry in order |
| AofDisk.NewBaseOk | redis-stable/src/aof.c:441-466 | a new BASE gets a name no listed file has and turns the old one into history, keeping the manifest well formed |
| AofDisk.NewIncrOk | redis-stable/src/aof.c:469-479 | a new INCR gets a name that neither BASE, INCR nor history has, provided the next number is not a history file's |
| AofDisk.RewrittenToHistoryOk | redis-stable/src/aof.c:506-536 | marking rewritten files keeps the manifest well formed |
| AofDisk.PersistedLoads | redis-stable/src/aof.c:266-367 | a written manifest loads, and its counters then cover every BASE and INCR it lists |
| AofDisk.HistoryIsNotLive | redis-stable/src/aof.c:689-713 | no history entry names a file listed as BASE or INCR, so deleting history removes none of them |
| AofDisk.RecoverFrame | redis-stable/src/aof.c:689-713 | files that a listing does not name as BASE or INCR do not affect what it recovers |
| AofDisk.RecoverAddIncr | redis-stable/src/aof.c:1054-1118 | listing one more INCR appends exactly its replay to what is recovered |
| AofInvariant.OtherFileKeepsServing | redis-stable/src/aof.c:1054-1118 | creating or truncating a file that is not listed leaves recovery as it was |
| AofInvariant.PersistNewIncr | redis-stable/src/aof.c:1054-1118 | listing a new INCR that replays to nothing recovers the same dataset as before |
| AofInvariant.AppendServes | redis-stable/src/aof.c:1399-1573 | appending entries to the last INCR appends exactly their replay to what is recovered |
| AofInvariant.RewrittenServes | redis-stable/src/aof.c:3847-3935 | snapshot and surviving INCR, once listed, recover the snapshot followed by the INCR's replay |
| AofSteps.FeedInv | redis-stable/src/aof.c:1661-1697 | feeding a call keeps the recovery invariant |
| AofSteps.FlushCore | redis-stable/src/aof.c:1399-1573 | writing any prefix of the buffer keeps the recovery invariant, the promise growing by exactly its replay |
| AofSteps.FlushAllIff | redis-stable/src/aof.c:1399-1573 | a flush makes the whole dataset durable if and only if it writes the whole buffer |
| AofSteps.CreateCore | redis-stable/src/aof.c:1054-1118 | the crash point after creating the INCR and before listing it recovers the same dataset |
| AofSteps.RotatedInv | redis-stable/src/aof.c:1054-1118 | a rotation, at whatever point it fails, keeps the invariant |
| AofSteps.ForkInv | redis-stable/src/aof.c:3197-3270 | forking a rewrite child after the rotation keeps the invariant, with its promise intact when the forced flush emptied the buffer |
| AofRewrite.HistoryGoneInv | redis-stable/src/aof.c:689-713 | deleting any part of the history, listed or not yet unlisted, keeps the invariant |
| AofRewrite.InstallInv | redis-stable/src/aof.c:3847-3935 | renaming the new BASE into place before it is listed keeps the invariant |
| AofRewrite.RenamedReady | redis-stable/src/aof.c:3847-3935 | renaming the temporary INCR before it is listed leaves everything ready for the manifest write |
| AofRewrite.CollectedServes | redis-stable/src/aof.c:689-713 | deleting all history files changes nothing that is recovered |
| AofRewrite.CollectedDeletes | redis-stable/src/aof.c:689-713 | with automatic deletion on exactly the history files go and the manifest stops listing them; with it off nothing changes |
| AofRewrite.SettledLeavesNothing | redis-stable/src/aof.c:3847-3959 | a rewrite that does not get listed leaves no BASE, INCR or temporary INCR of its own and every other file as it was |
| AofRewrite.ListedInv | redis-stable/src/aof.c:3847-3935 | the manifest write that publishes a rewrite keeps the invariant |
| AofRewrite.SnapshotPlusIncr | redis-stable/src/aof.c:3847-3935 | snapshot, INCR and buffer together make the dataset in memory |
| AofBackup.SealRecovers | redis-stable/src/aof.c:3670-3743 | the pinned BASE and INCR recover exactly what the live files recover |
| AofBackup.SealArtifacts | redis-stable/src/aof.c:3670-3743 | sealing an INCREMENTING backup has all three artifacts |
| AofBackup.SealedByRotation | redis-stable/src/aof.c:3670-3743 | letting go of the pinned INCR by a rotation keeps the sealed backup |
| AofBackup.IncrementingFacts | redis-stable/src/aof.c:3670-3700 | in INCREMENTING, AOF is on, exactly one INCR is listed and the pinned BASE is the live one, so the assertions at seal hold |
| AofBackup.SnapshotPinned | redis-stable/src/aof.c:3534-3547 | pinning the BASE of a finished snapshot gives an INCREMENTING backup that satisfies the invariant |
| AofRestart.LoadedServes | redis-stable/src/aof.c:266-367 | the manifest loaded from a disk recovers exactly what the disk recovered |
| AofRestart.StartKeepsIff | redis-stable/src/aof.c:734-790 | the whole start, INCR opened and listed and history deleted, leaves a disk that recovers the loaded dataset if and only if some INCR was listed, or INCR 1 is not about to be deleted as history and replays to nothing if it exists |
| AofRestart.Opened | redis-stable/src/aof.c:734-790 | opening or creating the last INCR at startup recovers the loaded dataset |
| AofServer.Server.Boot | redis-stable/src/aof.c:734-790 | a first start on an empty directory leaves a valid server, with AOF on when enabled and an empty BASE and INCR listed |
| AofServer.Server.Feed | redis-stable/src/aof.c:1661-1697 | a call extends the dataset by itself and keeps every promise |
| AofServer.Server.FlushBuffer | redis-stable/src/aof.c:1399-1573 | a flush of any number of entries moves exactly those from the buffer to the file and to the promise, and keeps every promise |
| AofServer.Server.RotateIncr | redis-stable/src/aof.c:1054-1118 | every crash point of a rotation recovers; success and each failure leave the stated disk and manifest; the promise survives if and only if what is buffered means the same in a fresh file and the writer remembers that file's database |
| AofServer.Server.RewriteBackground | redis-stable/src/aof.c:3197-3270 | the disk, log and child afterwards, exactly; the promise is lost if and only if a short forced flush is followed by the fork, or by a rotation that changes what the leftovers mean |
| AofServer.Server.DeleteHistory | redis-stable/src/aof.c:689-713 | the loop over the history deletes files one by one, each a recovering crash point, and then unlists them |
| AofServer.Server.InstallRewrite | redis-stable/src/aof.c:3847-3935 | the success part of a finished rewrite: the disk and log it leaves, exactly, and at each failing rename or manifest write every promise kept |
| AofServer.Server.PublishRewrite | redis-stable/src/aof.c:3847-3935 | naming the temporary INCR and listing both files keeps every promise |
| AofServer.Server.RewriteDone | redis-stable/src/aof.c:3847-3959 | when the rewrite gets listed and the disk, log, child and backup it leaves, exactly, in the failing cases too; the promise is lost if and only if an INCR that replays to something stays listed with AOF off, or the backup it was for fails and takes a directory the user relies on |
| AofServer.Server.Notify | redis-stable/src/aof.c:3534-3556 | a snapshot's end moves the backup to INCREMENTING with its BASE pinned, or to FAILED |
| AofServer.Server.Stop | redis-stable/src/aof.c:1260-1284 | turning AOF off writes what the flush takes, closes the log, kills the rewrite child and keeps what the disk recovers; a backup in progress fails, and its directory goes only if it owned it |
| AofServer.Server.Start | redis-stable/src/aof.c:1288-1329 | turning AOF on starts a rewrite or schedules one; the promise is lost if and only if it happens inside EXEC with a child forked while AOF was off and a temporary INCR that does not hold what followed the fork |
| AofServer.Server.SetEnabled | redis-stable/src/config.c:2675-2692 | CONFIG SET appendonly: disk, log, child and backup afterwards, and the promise lost if and only if turning it on loses it |
| AofServer.Server.SetFailed | redis-stable/src/aof.c:3483-3506 | failing a backup removes the files it pinned and the directory exactly when it owns it, stops an AOF that was on for it alone and leaves the user's own; the promise is lost if and only if AOF is on and enabled in that directory |
| AofServer.Server.StartPending | redis-stable/src/aof.c:3569-3615 | a pending backup takes over a rewrite running with AOF not off, waits for any other child, and otherwise forks its own or fails, with the disk, log and ownership each leaves; the promise is lost if and only if the fork loses it or a failing backup does |
| AofServer.Server.StartBackup | redis-stable/src/aof.c:3636-3667 | BACKUP START: when it is refused, put off or started and what each leaves; the promise is lost if and only if the snapshot it starts loses it |
| AofServer.Server.Seal | redis-stable/src/aof.c:3670-3743 | BACKUP SEAL fires no assertion and completes exactly when its disk operations do; the sealed files recover the dataset of that moment if and only if the forced flush wrote everything; with appendonly no the AOF is off again, its directory gone if the backup owned it and otherwise whole, its live files recovering what the sealed ones do; the promise is lost if and only if the rotation misroutes what follows or a failing backup takes the user's directory |
| AofServer.Server.PinIncr | redis-stable/src/aof.c:3670-3743 | pinning the INCR and writing the backup's manifest completes the artifacts or fails the backup |
| AofServer.Server.Release | redis-stable/src/aof.c:3700-3743 | the sealed INCR gets no more writes: the log is rotated away from it, every file kept, or closed; the directory is removed exactly when it is not rotated and the backup owns it |
| AofServer.Server.AbortBackup | redis-stable/src/aof.c:3746-3755 | BACKUP ABORT removes what was pinned and the directory exactly when the backup owns it, stops an AOF that was on for it alone, and loses the promise if and only if the backup owns a directory in which AOF is on and enabled |
| AofServer.Server.CleanupBackup | redis-stable/src/aof.c:3757-3766 | BACKUP CLEANUP removes only a finished backup |
| AofServer.Server.Restart | redis-stable/src/server.c:8346-8354 | a restart comes back with the dataset owed; what it leaves on disk recovers that dataset if and only if StartKeeps held of the disk before; the promise for everything after is kept if and only if, in addition, history that is not deleted is older than every INCR to come |
| AofServer.Server.CrashAt | redis-stable/src/aof.c:3847-3935 | a process that dies in the middle of an operation leaves the disk of a crash point and can be started on it |
| AofServer.Server.SetGc | redis-stable/src/config.c:2694-2701 | turning automatic deletion on deletes the history, changes nothing else and keeps every promise |
| AofRuns.Step | redis-stable/src/aof.c:3847-3959 | one operation of a run keeps the invariant; the dataset changes by the call made or by what a start loads; every crash point it adds has the dataset in memory, an end of the buffer from before and, unless AOF is on, a dataset owed before or after; the promise is lost if and only if a guard readable from the state before holds |
| AofRuns.CrashLosesTheBuffer | redis-stable/src/aof.c:3847-3959 | at every crash point inside an operation with AOF on, the recovered dataset followed by the calls of an end of the buffer is the dataset in memory, so with nothing buffered nothing is lost |
| AofRuns.Run | redis-stable/src/aof.c:3197-3235 | for every sequence of operations, with crashes between and inside them: at every moment each crash point so far recovers what it owes, which with AOF on is the dataset less the buffered calls; a SEALED backup has its three files, recovers what it was sealed with and is written no more; INCREMENTING has AOF on, one INCR and the pinned BASE; no assertion has fired; and the promise is kept to the end if and only if no operation met a hazard |
| AofRuns.Meaning | redis-stable/src/aof.c:3670-3743 | what the invariant says to a user of the files and of BACKUP |
| AofHazards.RewriteCycle | redis-stable/src/aof.c:3197-3235 | a rewrite from fork to end with any calls in between, all flushed: the disk recovers the dataset if and only if the forced flush before the fork emptied the buffer |
| AofHazards.ShortFlushRun | redis-stable/src/aof.c:3217-3235 | a run from a fresh server in which a call is recovered twice |
| AofHazards.StaleIncrIff | redis-stable/src/aof.c:506-536 | a rewrite that ends with AOF off and a descriptor left open recovers its snapshot if and only if the INCR that stays listed replays to nothing |
| AofHazards.StaleIncrRun | redis-stable/src/aof.c:506-536 | a run from a fresh server in which a failed fork leaves the descriptor open and a call is recovered twice |
| AofHazards.SealCycle | redis-stable/src/aof.c:3729-3737 | BACKUP SEAL with AOF on, then any calls, all flushed: the disk recovers what was there and the calls as a fresh file holds them, right when the remembered database is none or 0, and wrong for a first call in the remembered database otherwise |
| AofHazards.SealRun | redis-stable/src/aof.c:3729-3737 | a run from a fresh server in which a call after the seal comes back in another database |
| AofHazards.GapCycle | redis-stable/src/aof.c:1288-1329 | AOF turned on inside EXEC while a child forked with AOF off runs and a temporary INCR lies about: at the end of the child AOF is on, and the disk recovers the dataset if and only if that INCR holds what followed the fork |
| AofHazards.GapRun | redis-stable/src/aof.c:1288-1329 | a run from a fresh server in which AOF is on, nothing is buffered and a call is not on disk |
| AofHazards.AbortIff | redis-stable/src/aof.c:3483-3506 | aborting a backup with AOF on and enabled, all flushed: the disk recovers the dataset if and only if the backup does not own the directory or the dataset is empty |
| AofHazards.AbortAfterEnable | redis-stable/src/aof.c:3483-3506 | a run from a fresh server in which aborting a backup deletes the append-only files of a server whose AOF the user has turned on |
| AofHazards.RestartRun | redis-stable/src/server.c:8346-8354 | a run from a fresh server in which the start lists a history file as INCR and then deletes it |
| AofHazards.YoungHistoryLoses | redis-stable/src/aof.c:469-479 | an INCR in history with a number still to come: after as many rotations, deleting history leaves a manifest that names a missing file |
| AofBytes.ReadBack | redis-stable/src/aof.c:1661-1697 | the commands of a log outside transactions, read back, make the calls the log replays to |
| AofBytes.CrashAtAnyByte | redis-stable/src/aof.c:2034-2052 | a file cut at any byte of what was being written loads, with aof-load-truncated, exactly the calls of the entries that got through whole, and is left holding exactly those |
| AofBytes.CrashInsideFlush | redis-stable/src/aof.c:1470-1573 | a crash at any byte of a flush recovers, after the loader's cut, the promise of the crash point at which that many whole entries were written |
| AofStream.Append | redis-stable/src/aof.c:1609-1632 | the loop prints the command after what was there |
| AofStream.BytesOfGet | redis-stable/src/aof.c:1609-1632 | the bytes of one command, to fix the format |
| AofStream.ReadPrinted | redis-stable/src/aof.c:1891-1957 | reading a printed command gives back the same arguments, whatever bytes they hold and whatever follows |
| AofStream.ReadCut | redis-stable/src/aof.c:1891-1957 | every proper beginning of a command ends in an unexpected end of file, never in a format error or a different command |
| AofStream.LoadFile | redis-stable/src/aof.c:1891-2052 | the loading loop equals the recursive definition of loading, whose meaning is LoadTransactions, LoadCut, LoadOpenTransaction and LoadRefused |
| AofStream.LoadWhole | redis-stable/src/aof.c:1891-2018 | whole commands with no open transaction load as they are and leave the file alone |
| AofStream.LoadTransactions | redis-stable/src/aof.c:1974-2018 | a file of single commands and closed transactions loads whole, and what is run is every command in it but MULTI and EXEC, in order |
| AofStream.LoadRefused | redis-stable/src/aof.c:2041-2075 | bytes that start no command and no annotation fail the load, and so does a command cut short without aof-load-truncated; the file is left alone |
| AofStream.NoteSkipped | redis-stable/src/aof.c:1907-1914 | an annotation line is skipped |
| AofStream.MultiAndExec | redis-stable/src/aof.c:1971-1976 | the two words are told by their letters in any case |
| AofStream.LoadCut | redis-stable/src/aof.c:2034-2052 | a file that stops inside a command is cut right after the last whole one, wherever it stops, and loads the commands before |
| AofStream.LoadOpenTransaction | redis-stable/src/aof.c:2022-2027 | a file that ends inside a transaction is cut before its MULTI; loading the cut file succeeds with the same commands |
| AofStream.CutIsCleanIff | redis-stable/src/aof.c:2034-2052 | the file cut inside a command loads cleanly if and only if the cut was not inside a transaction |
| AofStream.AppendedAfterCutIff | redis-stable/src/aof.c:2034-2052 | a command appended to the cut file is there at the next load if and only if the cut was not inside a transaction; otherwise it is queued behind the dangling MULTI and lost |
| AofFlush.AppendFile.Feed | redis-stable/src/aof.c:1690-1697 | fed bytes wait in the buffer |
| AofFlush.AppendFile.Write | redis-stable/src/aof.c:1361-1378 | the loop over write() puts a prefix of the buffer in the file, and -1 means none of it |
| AofFlush.AppendFile.WriteBuffer | redis-stable/src/aof.c:1470-1573 | through full, failed and short writes, with or without a successful truncate, file followed by buffer is everything fed, the size is the file's, and the file holds exactly what was written and not cut off again |
| AofFlush.AppendFile.Flush | redis-stable/src/aof.c:1399-1607 | what is written, put off and synced, exactly: no byte is lost; under EVERYSEC a whole write, or an empty buffer, a second after the last sync leaves everything synced unless a sync runs or a child forbids it; under ALWAYS everything fed is written and synced; it exits exactly under ALWAYS with a short write or a failed sync |
| AclRules.OverriddenErased | redis-stable/src/acl.c:589-633 | whatever a rule did that a new rule overrides by name, the new rule erases |
| AclRules.DroppedAgree | redis-stable/src/acl.c:589-633 | dropping overridden rules from anywhere in the log changes only what the new rule erases |
| AclRules.LoggedReplays | redis-stable/src/acl.c:635-643 | after a rule is logged, replaying the log gives the permissions that applying it gave, although overridden rules are gone |
| AclRules.LoggedIsCompact | redis-stable/src/acl.c:589-643 | the log never holds a rule that a later one overrides |
| AclRules.LoggedDisplaces | redis-stable/src/acl.c:589-643 | a new rule displaces exactly the one with the same text and those of its subcommands and first arguments, and comes last |
| AclRules.RelogFixedPoint | redis-stable/src/acl.c:688-721 | logging a log's own rules again writes the same log |
| AclRules.ReservedUntouched | redis-stable/src/acl.c:1545-1570 | no rule touches the reserved bit |
| AclRules.RunFaithful | redis-stable/src/acl.c:1052-1221 | after any sequence of operations the log replays, from +@all or -@all as the reserved bit says, to the bitmap and first arguments in force |
| AclText.RemoveCommandRule | redis-stable/src/acl.c:589-627 | the in-place loop that moves the tail over each overridden rule leaves the text of the filtered list: single spaces, none at the end |
| AclText.SplitJoined | redis-stable/src/sds.c:1066-1165 | splitting a joined list of plain tokens gives the list back |
| AclText.SplitJoinIff | redis-stable/src/sds.c:1066-1165 | splitting a joined list gives it back if and only if no token holds a blank or a quote |
| AclSelector.Selector.SetBit | redis-stable/src/acl.c:575-584 | identifiers beyond the bitmap are ignored, others set or cleared |
| AclSelector.Selector.ChangePerm | redis-stable/src/acl.c:647-661 | the loop over subcommands sets exactly the command's and its subcommands' bits and forgets the command's first arguments |
| AclSelector.Selector.SetCategory | redis-stable/src/acl.c:669-683 | the loop over all commands sets exactly the category's bits and forgets its commands' first arguments |
| AclSelector.Selector.AddFirstArg | redis-stable/src/acl.c:960-986 | the loop adds a first argument unless one equal up to case is there |
| AclSelector.Selector.UpdateRules | redis-stable/src/acl.c:635-643 | text and list of rules change together |
| AclSelector.Selector.ChangeByRule | redis-stable/src/acl.c:1144-1221 | an operation is accepted exactly when it has a meaning, has exactly that effect, which SelectorObeys spells out bit by bit, and changes nothing when refused |
| AclSelector.Selector.SetRule | redis-stable/src/acl.c:1144-1221 | an accepted rule keeps the selector's invariant: its text replays to its permissions |
| AclSelector.Selector.SetSelector | redis-stable/src/acl.c:1052-1221 | by the text of the operation: +c and -c set and clear exactly the bits of c and its subcommands, +@g and -@g those of the commands with that category, the aliases all or none, +c|arg adds that first argument; anything else on commands is refused and changes nothing; every operation keeps the invariant |
| AclSelector.SelectorObeys | redis-stable/src/acl.c:1052-1221 | the effect of an operation on bitmap and first arguments, by its text |
| AclSelector.ApplyAll | redis-stable/src/acl.c:712-716 | replaying a log's own tokens on a reset selector is never refused and rebuilds log and permissions |
| AclSelector.Describe | redis-stable/src/acl.c:775-828 | the sanity check never aborts for a selector whose accepted operations held no blank or quote; the description is the start rule and the text |
| AclSelector.Recompute | redis-stable/src/acl.c:688-721 | recomputing from the rules is a fixed point: same permissions, same text |
| AclText.NoQuotedToken | redis-stable/src/sds.c:1066-1165 | behind plain tokens, splitting one more text gives no token as long as that text that holds a blank or a quote |
| AclSelector.LoggedTextReplaysIff | redis-stable/src/acl.c:1153-1203 | for every selector whose log is free of blanks and quotes and every rule it accepts: the new text replays to the new permissions if and only if the rule holds no blank and no quote |
| AclSelector.CommandIds.Assign | redis-stable/src/acl.c:1545-1570 | a name keeps its identifier, no two share one, and the reserved one is never handed out |
| BioModel.StepInv | redis-stable/src/bio.c:261-372 | every step of every thread keeps all of the invariant |
| BioModel.StepWakes | redis-stable/src/bio.c:353-372 | a non-empty completion list always has a byte in the pipe, a worker about to write one, or a reader about to take the list |
| BioModel.StepCounts | redis-stable/src/bio.c:185-193 | the counter of each kind is the number of jobs of that kind still queued |
| BioModel.RunInv | redis-stable/src/bio.c:261-449 | the invariant holds after every interleaving, spurious wake-ups included |
| BioModel.CallbacksInOrder | redis-stable/src/bio.c:420-449 | the callbacks made for a worker are the first of the requests submitted to it, in order, once each, and only after every earlier job of that worker ran |
| BioModel.CallbackAfterEarlier | redis-stable/src/bio.c:59-66 | a completion request is called back only after every job submitted before it of the kinds it stands for has run: closings for close-file, syncs and closings of append-only files for fsync, frees for lazy-free |
| BioModel.CalledAtMost | redis-stable/src/bio.c:211-233 | only completion requests are called back, none more often than it was submitted |
| BioModel.DrainReturns | redis-stable/src/bio.c:387-395 | draining returns only when every job queued to the worker has run |
| BioModel.Bounded | redis-stable/src/bio.c:261-449 | without new submissions only a bounded number of steps is left |
| BioModel.SettledIsDone | redis-stable/src/bio.c:261-449 | a state in which no thread can go on has run every job, made every callback and released every drainer: no signal on the shared condition variable is lost |
| BioModel.SettledCallsBack | redis-stable/src/bio.c:420-449 | once no thread can go on, each completion request of each of the three kinds has been called back as often as it was submitted |
| BioPool.Pool.SubmitJob | redis-stable/src/bio.c:185-193 | submitting is one action of the model |
| BioPool.Pool.LookForJob | redis-stable/src/bio.c:285-296 | waiting for or taking the first job is one action of the model |
| BioPool.Pool.PerformJob | redis-stable/src/bio.c:299-356 | performing a job, or listing its completion, is one action of the model |
| BioPool.Pool.WritePipe | redis-stable/src/bio.c:358-360 | a write to a full pipe does nothing |
| BioPool.Pool.RemoveJob | redis-stable/src/bio.c:368-371 | removing the finished job is one action of the model |
| BioPool.Pool.PendingOfType | redis-stable/src/bio.c:376-384 | the answer is the number of jobs of that kind in the queue |
| BioPool.Pool.DrainRound | redis-stable/src/bio.c:387-395 | an empty queue means every job has run |
| BioPool.Pool.ReadPipe | redis-stable/src/bio.c:428-428 | one read of up to 128 bytes is one action of the model |
| BioPool.Pool.TakeList | redis-stable/src/bio.c:431-436 | taking the completion list is one action of the model |
| BioPool.Pool.CallNext | redis-stable/src/bio.c:440-447 | the next callback is made and recorded exactly once |
| SlotRouting.GetNodeByQuery | redis-stable/src/cluster.c:1238-1489 | by the node's slots and keys and the keys of the query, each answer exactly under its condition: TRYAGAIN for a leaving slot with keys here and gone, or an arriving one asked with several keys not all here; ASK for a leaving slot with none here; MOVED to the owner; served here otherwise; MIGRATE in an open slot, no keys, several slots and unbound slots included; the loops with counters agree |
| SlotRouting.RouteAnswers | redis-stable/src/cluster.c:1291-1489 | the decision over the set of keys gives each answer exactly under its condition |
| SlotRouting.HandOver | redis-stable/src/cluster.c:710-744 | the loop over MIGRATE's replies deletes exactly the acknowledged keys and lists exactly those for the replicas |
| SlotMigration.StepInv | redis-stable/src/cluster.c:1291-1461 | every step of operator, clients and MIGRATE keeps the invariant and has its effect on the one store the two nodes stand for |
| SlotMigration.RunInv | redis-stable/src/cluster.c:1291-1461 | in every run the two nodes hold together exactly what one store would after the same commands |
| SlotMigration.ServedSeesAll | redis-stable/src/cluster.c:1432-1461 | a served command, with one key, many or EXEC, finds on its node every one of its keys that exists anywhere, with the value of the one store |
| SlotMigration.NeverOnBoth | redis-stable/src/cluster.c:710-744 | no key is on both nodes while no MIGRATE waits for replies |
| SlotMigration.SourceShrinks | redis-stable/src/cluster.c:1432-1444 | once the slot is leaving, the source's key set only shrinks |
| SlotMigration.RestoreNotBusy | redis-stable/src/cluster.c:710-744 | a restored key is found on the target only if the same MIGRATE named it twice |
| SlotMigration.SingleKeyServed | redis-stable/src/cluster.c:1432-1488 | a command about one key is served at the source or sent to a target that serves it |
| SlotMigration.LostConnectionIff | redis-stable/src/cluster.c:668-744 | a connection lost during MIGRATE never leaves a key on both nodes, however many of the RESTOREs already sent the target still executes, if and only if the source holds no key with an accepted restore unacknowledged and none with a restore still to come to a target that takes it in |
| SlotMigration.LostConnectionRun | redis-stable/src/cluster.c:668-744 | one key sent and the connection lost before its reply: the key ends up on both nodes |
| BlockedIndex.AddKeyLinked | redis-stable/src/blocked.c:410-442 | blocking on one more key keeps the two-way index consistent |
| BlockedIndex.AddKeyCounted | redis-stable/src/blocked.c:433-441 | the count of waiters that wake on deletion stays right |
| BlockedIndex.DropKeyLinked | redis-stable/src/blocked.c:565-598 | releasing an entry keeps the index consistent and leaves no empty list |
| BlockedIndex.DropKeyCounted | redis-stable/src/blocked.c:584-595 | the count goes down exactly with a waiter that was counted |
| BlockedIndex.BlockValid | redis-stable/src/blocked.c:399-450 | blocking on any keys, repeated ones included, keeps the index consistent |
| BlockedIndex.BlockQueue | redis-stable/src/blocked.c:399-450 | the client stands at the end of exactly the lists of the keys it names, once each |
| BlockedIndex.DropOnTheWay | redis-stable/src/blocked.c:454-468 | releasing the keys in any order ends in the same index |
| BlockedIndex.UnblockValid | redis-stable/src/blocked.c:454-468 | taking a client out of all lists keeps the index consistent and the others in order |
| BlockedRuns.StepInv | redis-stable/src/blocked.c:346-598 | index, per-kind counters and ready queues stay right through every step |
| BlockedRuns.RunInv | redis-stable/src/blocked.c:346-598 | they are right after every run: a client lists a key iff it stands once in that key's list at the stored node, counters equal the blocked clients, no key is queued twice |
| BlockedRuns.SignalIsNotLost | redis-stable/src/blocked.c:497-552 | a signal on a key with a waiter it serves always leaves the key queued |
| BlockedRuns.SignalQueuesIff | redis-stable/src/blocked.c:497-552 | a signal queues a key not queued yet if and only if some client is blocked for its kind, or for growth when it is a list, and somebody waits for the key, for a deleted one somebody who wakes on deletion |
| BlockedRuns.PassOutcome | redis-stable/src/blocked.c:620-666 | after a pass the waiters passed over keep their order in front, the served ones that blocked again follow in serving order, the rest are gone |
| BlockedRuns.PassTreats | redis-stable/src/blocked.c:648-666 | what a pass does to each waiter it visits, by the kind found and the waiter as it was before the pass |
| BlockedServer.Server.BlockForKeys | redis-stable/src/blocked.c:399-450 | the loop over the keys refines the step of the model |
| BlockedServer.Server.ReleaseEntry | redis-stable/src/blocked.c:565-598 | both assertions hold and the entry is released in both directions |
| BlockedServer.Server.ReleaseAll | redis-stable/src/blocked.c:454-468 | the loop over the client's keys, in any order, releases them all |
| BlockedServer.Server.UnblockClient | redis-stable/src/blocked.c:184-216 | the client leaves index and counter |
| BlockedServer.Server.SignalKey | redis-stable/src/blocked.c:497-552 | the early exits and the de-duplicated queueing refine the step of the model |
| BlockedServer.Server.NextReady | redis-stable/src/blocked.c:363-386 | the next key is taken off the queues and is no longer flagged while it is handled |
| BlockedServer.Server.HandleKey | redis-stable/src/blocked.c:620-666 | the walk with a saved next node visits exactly the waiters present at its start, in blocking order, although each served client leaves and may rejoin the list; a waiter for the kind of object found, for growth when a list is found, or one that wakes on deletion is blocked no more, or as its command blocked again, and every other client is blocked exactly as before |
| BlockedServer.Server.Serve | redis-stable/src/blocked.c:714-760 | serving a client is releasing it and, if its command blocks again, blocking it again |
| Chk.AltInvolution | redis-stable/src/chk.c:169-171 | for any power-of-two table size the alternative of the alternative address is the address itself |
| Chk.KickConserves | redis-stable/src/chk.c:248-281 | an eviction chain conserves items: counting the one in hand, each occupies as many slots after as before, but for the last one in hand, which may be lost; every displaced entry keeps its home |
| Chk.KickKeeps | redis-stable/src/chk.c:248-281 | an eviction chain empties no heavy slot and touches no lobby entry |
| Chk.PromoteInv | redis-stable/src/chk.c:286-328 | promotion, whatever the draw, keeps every item in one slot and every live lobby entry behind full buckets |
| Chk.HeavyInv | redis-stable/src/chk.c:196-234 | bumping or placing a heavy entry keeps the invariant: an item with an empty slot is in no lobby |
| Chk.HitInv | redis-stable/src/chk.c:331-365 | a hit in the lobby keeps the invariant, and its branch for an empty heavy slot is never taken |
| Chk.EnterInv | redis-stable/src/chk.c:480-505 | an untracked item entering the lobby keeps the invariant |
| Chk.DecayInv | redis-stable/src/chk.c:507-536 | decaying and replacing a lobby entry keeps the invariant |
| Chk.UpdateInv | redis-stable/src/chk.c:456-536 | for every draw and decay an update keeps each item in at most one live slot and each live lobby entry behind two full buckets |
| Chk.RunInv | redis-stable/src/chk.c:456-536 | the same after every run whose weights stay below the counters' limit |
| ChkCounts.HeavyCounts | redis-stable/src/chk.c:196-234 | an item with a heavy entry counts exactly the weight more, one without starts at the weight if a slot is empty, and no other count changes |
| ChkCounts.KickCounts | redis-stable/src/chk.c:248-281 | an eviction chain moves counts and changes none, but for the one it ends up losing |
| ChkCounts.PromoteCounts | redis-stable/src/chk.c:286-328 | a lobby entry moves up when the draw is lucky or it counts at least as much as the least heavy one, takes over that one's count, and at most one item is pushed out |
| ChkCounts.UpdateCounts | redis-stable/src/chk.c:456-505 | what an update does to all counts: heavy, placed, counted up in the lobby, moved up or held at the threshold |
| ChkTables.TopK.CheckHeavyEntries | redis-stable/src/chk.c:196-234 | the nested loops find the item, or the first empty slot, as defined |
| ChkTables.TopK.Kickout | redis-stable/src/chk.c:248-281 | the loop of at most 16 pushes refines the chain |
| ChkTables.TopK.TryPromote | redis-stable/src/chk.c:286-328 | promotion in place refines its definition |
| ChkTables.TopK.CheckLobbyEntries | redis-stable/src/chk.c:331-365 | the loop over both lobby slots refines its definition |
| ChkTables.TopK.EnterLobby | redis-stable/src/chk.c:480-536 | entering or decaying refines its definition |
| ChkTables.TopK.Record | redis-stable/src/chk.c:456-536 | an update in place refines its definition, keeps the invariant and does to every count what ChkCounts.UpdateCounts says |
| BitRange.OverflowIff | redis-stable/src/bitops.c:579-669 | for every stored value and every 64-bit increment overflow is reported if and only if the exact sum leaves the field; WRAP gives the value of the field congruent to it, SAT the nearest |
| Bitfield.GetUnsigned | redis-stable/src/bitops.c:520-532 | the loop reads the number the field's bits stand for |
| Bitfield.SetUnsigned | redis-stable/src/bitops.c:500-513 | the loop writes the low bits of the value into the field and changes no other bit |
| Bitfield.GetPadded | redis-stable/src/bitops.c:2075-2110 | the nine-byte buffer reads a field as if the string went on with zeros |
| Bitfield.ValueOfBits | redis-stable/src/bitops.c:500-532 | writing a number and reading it back cuts it to the field |
| Bitfield.Numbering | redis-stable/src/bitops.c:500-532 | bits are numbered from the most significant of each byte and fields read most significant bit first |
| Bitfield.StoreKeeps | redis-stable/src/bitops.c:515-554 | a value of the field, cast and cut, is read back as itself, negative ones included |
| Bitfield.Get | redis-stable/src/bitops.c:534-554 | GET answers the value stored, sign extended |
| Bitfield.IncrBy | redis-stable/src/bitops.c:1992-2073 | INCRBY replies what a later GET returns, changes no bit outside the field, and under FAIL an overflow changes nothing |
| BitOp.BitFoldMeans | redis-stable/src/bitops.c:1514-1578 | what the loop over the keys carries for one bit, for each of the eight operations |
| BitOp.StopIsFinal | redis-stable/src/bitops.c:1514-1582 | once the byte loop may stop, later keys change nothing |
| BitOp.OneByte | redis-stable/src/bitops.c:1509-1599 | the byte loop with its early exits gives every bit its definition |
| BitOp.FastFoldMeans | redis-stable/src/bitops.c:1417-1504 | the word loop's ONE, which takes common bits out once at the end, and NOT agree with the definition |
| BitOp.WordRight | redis-stable/src/bitops.c:1376-1505 | each byte of a result word is right for its position |
| BitOpCommand.FastPath | redis-stable/src/bitops.c:1360-1505 | four words at a time, with the second pass of DIFF, DIFF1 and ANDOR, every processed byte is right |
| BitOpCommand.Compute | redis-stable/src/bitops.c:1322-1600 | for any number of keys and any lengths every bit of the result is what the operation says of the keys' bits at its position, a key having zeros past its end, and the result is as long as the longest key |
| BitCount.MasksAreCode | redis-stable/src/bitops.c:124-137 | the shifts and masks on all 32 bits at once, which bring in bits of the next byte and mask them out, are the steps on numbers |
| BitCount.CountedPacked | redis-stable/src/bitops.c:124-137 | the three masking steps leave in each byte of a word the number of ones of that byte, without borrow or carry between bytes |
| BitCount.AddBytesPacked | redis-stable/src/bitops.c:138-144 | the multiplication adds the four byte sums of seven words without overflow |
| BitScan.Seven | redis-stable/src/bitops.c:110-145 | one round over 28 bytes counts their set bits |
| BitScan.Popcount | redis-stable/src/bitops.c:67-152 | for any alignment the result is the number of set bits |
| BitScan.EdgeBits | redis-stable/src/bitops.c:1664-1715 | the edge masks pick out exactly the bits of the first and last byte outside the range |
| BitScan.CountRange | redis-stable/src/bitops.c:1650-1717 | BITCOUNT of a range in bytes or bits is the number of set bits at the positions asked for, negative ones counting from the end |
| BitWord.LampBit | redis-stable/src/bitops.c:437-471 | the loaded word seen through the bit that was shifted down t places shows bit t of the string from there |
| BitWord.Load | redis-stable/src/bitops.c:437-449 | the loop shifts in the next eight bytes, zeros behind the end |
| BitWord.FirstInWord | redis-stable/src/bitops.c:458-476 | the loop over the shifted bit finds the first bit of its kind in a word that has one, and never falls out |
| BitScan.BitPos | redis-stable/src/bitops.c:392-477 | the result is the first bit of its kind in the zero-padded string, or -1 when there is no set bit; the final panic is unreachable |
| BitScan.SearchBits | redis-stable/src/bitops.c:1812-1858 | first byte under its mask, whole bytes, last byte under its mask: the first bit of its kind in the range or none |
| BitScan.PosRange | redis-stable/src/bitops.c:1763-1858 | BITPOS of a range in bytes or bits, negative indexes and missing end included, is the first position asked for with that bit; without one -1, or the position behind the string |
| SlotRanges.MergeInPlace | redis-stable/src/cluster.c:1951-1964 | the in-place loop leaves the merged array in front |
| SlotRanges.SortMerge | redis-stable/src/cluster.c:1951-1964 | for any order the sort may choose, every slot is covered as often as before, and disjoint ranges become canonical |
| SlotRanges.CanonicalUnique | redis-stable/src/cluster.c:1951-1964 | two canonical arrays that cover the same slots are equal |
| SlotRanges.EqualIff | redis-stable/src/cluster.c:1967-1981 | on disjoint arrays the comparison holds if and only if the same slots are covered |
| SlotRanges.CheckRanges | redis-stable/src/cluster.c:1827-1862 | the nested loops accept if and only if there are ranges, fewer than slots, and the array is in bounds, the right way round and disjoint |
| SlotRanges.ValidIff | redis-stable/src/cluster.c:1827-1862 | for ranges the right way round, validation after merging accepts if and only if the number is within the limit and the original array was in bounds and disjoint |
| SlotRanges.AcceptsIff | redis-stable/src/cluster.c:1827-1862 | for arrays of any ranges and any order the sort may choose, validation accepts if and only if the runs of touching neighbours in the sorted array each end no earlier than they begin, in bounds, with a gap before the next |
| SlotRanges.ValidationRightIff | redis-stable/src/cluster.c:1827-1862 | validation accepts exactly the in-bounds disjoint arrays of ranges the right way round, if and only if the sorted array does not consist of good runs one of which hides a range the wrong way round: one that cuts its run short, or an empty one that leads into the next range |
| SlotRanges.BackwardRangeAccepted | redis-stable/src/cluster.c:1827-1862 | two concrete arrays with a range the wrong way round that validation accepts |
| SlotRanges.AppendCanonical | redis-stable/src/cluster.c:1994-2024 | appending a larger slot keeps the form canonical and covers that slot too |
| SlotRanges.NodeRanges | redis-stable/src/cluster.c:2165-2177 | the loop over all slots gives the canonical form of those the node owns |
| SlotText.ToString | redis-stable/src/cluster.c:1885-1897 | the loop prints ranges separated by single spaces |
| SlotText.PieceIff | redis-stable/src/cluster.c:1913-1921 | a printed range is read back cut to sixteen bits, so as itself if and only if both numbers are below 65536 |
| SlotText.RoundTrip | redis-stable/src/cluster.c:1885-1936 | printing a non-empty canonical array and parsing it gives the same array through sorting, merging and validation |
| AdList.TieChains | redis-stable/src/adlist.c:370-387 | tying the last node of one chain to the first of another gives one chain and changes no other link or value |
| AdList.CutChain | redis-stable/src/adlist.c:179-193 | cutting a chain between two nodes gives two chains |
| AdList.Heap.LinkHead | redis-stable/src/adlist.c:90-102 | the header stands for the node followed by the old sequence |
| AdList.Heap.LinkTail | redis-stable/src/adlist.c:123-134 | the header stands for the old sequence followed by the node |
| AdList.Heap.Insert | redis-stable/src/adlist.c:136-164 | the new node stands right before or after the old one, head and tail included |
| AdList.Heap.Unlink | redis-stable/src/adlist.c:179-193 | the header stands for the sequence without the node, whose links are cleared |
| AdList.Heap.Delete | redis-stable/src/adlist.c:169-174 | the node's memory is given back and the rest of the list is intact |
| AdList.Heap.RotateTailToHead | redis-stable/src/adlist.c:339-351 | the last node becomes the first; nodes and values are conserved |
| AdList.Heap.RotateHeadToTail | redis-stable/src/adlist.c:354-366 | the first node becomes the last; nodes and values are conserved |
| AdList.Heap.Join | redis-stable/src/adlist.c:370-387 | the first header stands for both sequences, the second for none |
| AdList.Heap.Sweep | redis-stable/src/adlist.c:209-244 | iterating from the head while deleting any of the visited nodes visits each original node once, in order, and keeps the others in order |
| AdList.Heap.SweepBack | redis-stable/src/adlist.c:214-244 | the same from the tail |

## Left out

- AofServer.Server.FlushBuffer: entries are the unit of the file; a crash at a byte in between is AofBytes.CrashInsideFlush, for commands outside transactions.
- AofServer.Server.Restart: with automatic deletion off, young history is counted as lost at the start although it is only met rotations later.
- AofServer.Server.RemoveAofDir: removing a directory is one crash point, not one per file.
- AofRuns.Run: a run that goes back to a crash point before a hazard it met still counts as having met it; a crash is a crash of the process; power loss, fsync and a manifest rename whose directory sync fails are not modelled.
- AofStream.LoadFile: no RDB preamble, no corrupt-tail recovery, every command known, lines shorter than the reading buffer, numbers as leading digits without sign.
- AofFlush.AppendFile.Flush: replication offsets and latency samples are not modelled, and after exiting only the file is described.
- AclSelector.Selector.SetSelector: key and channel operations are recognised and leave the command state alone; their patterns are not modelled. The bitmap is a set of identifiers, not words.
- AclSelector.Describe: the ALLCOMMANDS flag and the order of first arguments are not compared, since replay does not keep them.
- BioModel.RunInv: effects of jobs (fsync, close, free) are single steps without failure; one drainer per worker, as the main thread is the only one.
- SlotMigration.RunInv: one slot and two nodes; no key expiry, no aborted migration, operator steps in the documented order, MIGRATE without COPY.
- SlotRouting.GetNodeByQuery: cluster-down states, read-only replicas, sharded pub/sub, trimming and the no-redirection module flag are not modelled.
- BlockedServer.Server.HandleKey: native waiters only; re-executing a command affects only its own client's blocking state.
- Chk.RunInv: the heap of names and the decay arithmetic are not modelled; fingerprints are any numbers.
- Bitfield.IncrBy: SET and the parsing of BITFIELD arguments are not modelled.
- BitScan.Popcount: the POPCNT and vector paths are not modelled.
- AdList.Heap.Insert: memory is a map from addresses to nodes and headers are values, because footprint reasoning over reference objects is beyond the resource limit of the verifier; aliasing is by equal addresses. Duplicating, searching and indexing lists are not modelled.
- Replication offsets in the manifest, AOF timestamps, upgrade and preload of old files, logging and replies.
- Event loop back ends, sockets, TLS, module APIs, RDB, and ACL authentication.
