# Docus: verification of crash recovery, metadata and locking

Docus keeps a vault of Markdown files and a SQLite database beside it. This
project models the parts of its server that must survive deaths of the process
at any point, outside editors, and concurrent requests, and proves properties of
them. Run `dafny verify dfyconfig.toml` to check all of it.

Conventions used throughout:

- A method that makes system calls returns a `Step`: `Crashed` when the machine
  died before the call, `Done` with a value otherwise. `:-` passes a death on, so
  a contract that speaks of `Crashed` speaks of a death at any step. `mortal` says
  whether there are deaths; without them every method is `Done`.
- Outside programs run between any two system calls. `rivals` says whether there
  are any; what holds without them is stated under `!d.rivals`.
- Texts stand for their SHA-256 hashes (taken to be injective). Random
  identifiers are fresh. `link()` fails only because the name exists.
- Each database transaction is one step or has no effect.

## The modules

| files | what they model |
|---|---|
| ReplaceDisk, AtomicReplace, ReplaceRecovery | the conditional atomic replace of one file and its startup recovery |
| FolderMoveState, FolderMoveStaging, FolderMove, FolderMoveRecovery | the version 4 folder move: four durable phases, two strategies, files and rows, leftover staging names, the recovery passes |
| FolderMoveRescue, FolderMoveRuns, FolderMoveRescueRuns | which interrupted moves can still be completed, runs that stall or lose a move, and the run of startups that completes every other one |
| VaultDisk, CreateOnlyMove | moving one file without ever overwriting, and recovering its staging name |
| RenameReferences, RenameRecovery | rewriting the documents that refer to a renamed one |
| MetadataTables, MetadataVersion, PrefixPlanning, PrefixDeletion, PrefixMove, PrefixPrediction | moving and deleting metadata below a path, row by row under unique indexes, and the snapshot that predicts the result |
| MetadataRestore | the compare-and-set restore of metadata |
| TagCollapse, TagIdentityMigration | the migration that collapses colliding tag identities |
| TagAssociations, TagMerge, TagPreview | tag set difference, tag merge, preview paging |
| VaultWriter | the owner file that keeps a vault to one process |
| WriteLockQueues, DocumentWriteLock | the promise-chain lock table with sorted acquisition |
| Wrappers, Documents, Decimals, StringOrder, Collections | shared helpers |

## What the proofs found

- A replayable folder move cut among its files is completed by one startup call if
  its rows are untouched and every file aside has one staging name and no other name
  (`TakeoverDeathCompletes`). `CompletesIff` says exactly from which states a call
  that does not die removes the journal, and `FirstCallDecides` that if it does not,
  no number of calls that do not die ever will.
- Some interrupted moves are lost whatever happens later, startups that die
  included: one death is enough, between link and unlink of a file when an empty
  subfolder is removed too early (`OneDeathStrands`). `Startups` keeps `Hopeless`
  over every run, and from every other state some run of startups completes the move
  (`RescueExists`), so `Rescuable` is the exact condition.
- In between are moves that startups complete only if one of them dies at the right
  moment: two deaths can leave a file half restored (`TwoDeathsStall`) or pull a row
  along alone (`TornRows`), three give a file two staging names (`ThreeDeathsStray`,
  with the death that saves it in `ThreeDeathsRescued`).
- The committed snapshot written ahead of a folder move is not always what the
  tables become: a migration row at the path of a replaced document that does not
  name that document, or that keeps an original path below the source, ends in the
  runtime mismatch (`PredictionIsExact`, `UnownedRowHappens`).
- Rolling back a rename whose document refers to itself cannot be completed once
  the file is back under its old name (`BackAgainIff`, `MoveBackDeathStrands`). A
  rename journal with one payload already removed is not believed in any phase, so
  a death inside its cleanup leaves it behind for good (`CleanupDeathStrands`).
  `RecoverCompletesIff` gives the exact condition for one startup that does not die
  and `EverCompletesIff` for any number of them; a journal that one of them would
  leave alone stays, also if startups die (`Restart`).
- A metadata restore never rewrites a live tag, so it can succeed only if the tags
  of the snapshot are live already or insertable (`RestoresIff`). A migration row
  that only its document brought into the footprint is not deleted: it outlives the
  restore, detached from the document that comes back (`LooseRowsStay`).

## Model

| member | source | states |
|---|---|---|
| ReplaceDisk.RivalsConserve | server/atomicTextWrite.ts:914-1062 | outside programs cannot make a taken generation disappear other than by changing it at the target |
| ReplaceDisk.Disk.TakeOver | server/atomicTextWrite.ts:914-950 | the takeover rename moves exactly the target's current inode under the staged name, or reports that it is missing |
| ReplaceDisk.Disk.LinkToTarget | server/atomicTextWrite.ts:980-987 | create-only publication: it never replaces an existing target |
| AtomicReplace.RestoreStaged | server/atomicTextWrite.ts:669-710 | a staged generation goes back only to an absent target and otherwise stays staged; nothing taken is lost |
| AtomicReplace.Publish | server/atomicTextWrite.ts:980-1075 | after a verified takeover the replacement is linked, or an outside generation wins; artifacts and journal go, and without outside programs the state stays recoverable at every step |
| AtomicReplace.GiveWay | server/atomicTextWrite.ts:988-1006 | when the target exists again, both own files go and the answer is a conflict |
| AtomicReplace.VerifyTaken | server/atomicTextWrite.ts:951-978 | the replacement is published only over the expected text; any other text is put back |
| AtomicReplace.PutBack | server/atomicTextWrite.ts:971-978 | a generation that is not the expected one returns to the absent target and the write is given up |
| AtomicReplace.TakeAndPublish | server/atomicTextWrite.ts:914-1075 | the outcome is committed exactly if the target held the expected text, and the target then shows the replacement, else its old text |
| AtomicReplace.Commit | server/atomicTextWrite.ts:798-1076 | the whole commit, dead or finished at any step: nothing taken is lost, and without outside programs it stays recoverable and ends in one of the two texts |
| AtomicReplace.ReplaceIfUnchanged | server/atomicTextWrite.ts:1131-1148 | prepare and commit: undisturbed the answer tells exactly whether the text was replaced; with outside programs too, committed means the replacement was linked over a taken generation with the expected text, and any other answer that it never was |
| ReplaceRecovery.RemovePayload | server/atomicTextWrite.ts:192-200 | a payload is dropped only as the generation that was captured |
| ReplaceRecovery.SettlePublished | server/crashRecovery.ts:795-826 | a journal whose target shows the replacement is finished, or set aside if the old generation changed, never touching the target |
| ReplaceRecovery.CompleteSave | server/crashRecovery.ts:828-852 | an absent target gets the replacement if both hashes still hold, and payloads and journal go |
| ReplaceRecovery.RollBack | server/crashRecovery.ts:853-872 | otherwise the staged generation returns, its save is set aside for manual recovery, and without a save the journal goes |
| ReplaceRecovery.RecoverJournal | server/crashRecovery.ts:709-872 | every branch of journal recovery keeps the write recoverable and may die itself; undisturbed, each branch has its exact outcome: a write cut between takeover and link is finished if both generations are intact and undone otherwise |
| ReplaceRecovery.SettleOrphans | server/crashRecovery.ts:3075-3123 | orphaned artifacts are settled without changing an existing target; undisturbed, an absent target gets a staged generation back and saves go exactly if the target exists |
| ReplaceRecovery.RecoverDirectory | server/crashRecovery.ts:2972-3123 | one recovery pass, dead at any step, keeps the write recoverable; a finished one shows the replacement exactly if what was taken was expected and the save is whole, and the taken generation otherwise, with the save set aside |
| ReplaceRecovery.Restart | server/crashRecovery.ts:3269-3388 | the same for any number of recoveries that die; the first that does not finishes |
| ReplaceRecovery.Serve | server/atomicTextWrite.ts:1131-1148 | over any sequence of writes with deaths and recoveries, the history of answers explains the target's text, and a taken generation is lost only if it held the text expected by the write that took it; without deaths every request is answered |
| ReplaceRecovery.ExplainsLastChange | server/atomicTextWrite.ts:798-1076 | a changed target was last changed by a request whose expected text was there before it, and every later request left the text as it was |
| ReplaceRecovery.ExplainsOnlyKnownTexts | server/crashRecovery.ts:794-872 | whatever dies when, the target shows its first text or the replacement of some request |
| FolderMoveState.NothingIsLost | server/folderMoveV4Executor.ts:103-295 | under the invariant every journaled inode is reachable under one of its names, and from files-landed on at the destination |
| FolderMove.Vault.MoveFile | server/documentFileLifecycle.ts:260-347 | moving one file of the folder: every step keeps the invariant, and the file ends at the destination only |
| FolderMove.Vault.MoveEntries | server/documentFileLifecycle.ts:940-1031 | all files still at the source are moved into the gate, from any split |
| FolderMove.Vault.RemoveDeclaredEmptyDirectories | server/documentFileLifecycle.ts:440-532 | bottom-up removal takes exactly the subfolders with nothing left below them, and tells whether one was gone before |
| FolderMove.Vault.FinalizeCleanup | server/folderMoveV4Metadata.ts:369-558 | cleanup removes the journal only when the source is gone and both stores are at the destination |
| FolderMove.Vault.CompleteFolderMoveMetadata | server/folderMoveV4Metadata.ts:560-820 | rows move in one step from the prepared to the committed table; any other table is left alone |
| FolderMove.Vault.Execute | server/folderMoveV4Executor.ts:103-295 | the executor, dead at any step, keeps the invariant and only advances the phase; finished, both stores are at the destination |
| FolderMove.Vault.RecoverFolderMoveJournal | server/crashRecovery.ts:1658-2083 | recovery by durable phase, dead at any step, keeps the invariant; finished, it did what the recovery function says |
| FolderMove.Vault.RecoverRenameStaging | server/crashRecovery.ts:2640-2694 | one staging name is resolved, dead at any step: link and unlink of a restored file are two steps, and a partner may be the source, the destination or another staging name |
| FolderMove.Vault.RecoverRenameStagings | server/crashRecovery.ts:2640-2694 | every leftover staging name is resolved, in any order and dead at any step; the rows have followed their files |
| FolderMoveStaging.SettleOneMore | server/crashRecovery.ts:2640-2694 | resolving staging names one after the other has one outcome, whatever their order |
| FolderMoveStaging.PartnerIsFirst | server/crashRecovery.ts:2660-2669 | the partner of a staging name is the path of its inode that sorts first |
| FolderMoveStaging.RowOfSettled | server/crashRecovery.ts:2673-2680 | a row moves with the first resolved name of its file, or never |
| FolderMove.SettleKeepsInv | server/crashRecovery.ts:2658-2694 | each step of resolving one staging name keeps the invariant: between link and unlink, and before the row follows |
| FolderMoveRecovery.RecoverJournalKeepsInv | server/crashRecovery.ts:1658-2083 | a whole journal recovery keeps the invariant and removes the journal unless it quarantines |
| FolderMoveRecovery.SettleStagingsKeepsInv | server/crashRecovery.ts:2640-2694 | after resolving all staging names none is left and the invariant holds |
| FolderMoveRecovery.RecoverInterruptedOperations | server/crashRecovery.ts:3339-3388 | the pass loop ends in exactly one look at the journal, the staging names, and one more look if any was resolved |
| FolderMoveRecovery.MoveAndRestart | server/crashRecovery.ts:3269-3388 | over every run of executor, deaths and recoveries: once the journal is gone, files and rows are both wholly at the source or both wholly at the destination |
| FolderMoveRecovery.CompletesIff | server/crashRecovery.ts:1770-2083 | from every state of every run, a startup call removes the journal exactly if a stated condition on phase, gate, shells and rows holds |
| FolderMoveRecovery.EndsForward | server/crashRecovery.ts:1770-2083 | a call that ends the move undoes it exactly in the prepared phase and completes it otherwise |
| FolderMoveRecovery.CompletionUnmarks | server/folderMoveV4Metadata.ts:548-552 | a call that completes a move takes the gate marker away |
| FolderMoveRecovery.TakeoverDeathCompletes | server/crashRecovery.ts:1970-2024 | a replayable move that died with files aside, each with one staging name and no other, is completed by one call through its second pass |
| FolderMoveRecovery.FirstCallDecides | server/crashRecovery.ts:3339-3388 | the first uninterrupted call decides: if it leaves the journal, all later ones do |
| FolderMoveRuns.MoveCallsLand | server/documentFileLifecycle.ts:940-1031 | the list of system calls that moves the files, in any order, leads where moving the entries leads |
| FolderMoveRuns.StagingCallsSettle | server/crashRecovery.ts:2640-2694 | the list of system calls that resolves the staging names, in any order, leads where resolving them leads |
| FolderMoveRuns.GateCallsMake | server/folderMoveV4Executor.ts:103-200 | the executor's calls up to the recorded gate |
| FolderMoveRuns.MissingStalls | server/crashRecovery.ts:1970-2024 | with a file missing, no number of startups that do not die completes a move in which one row leaves its source path and one does not reach the destination; it is not lost |
| FolderMoveRuns.OneDeathStrands | server/documentFileLifecycle.ts:480-488 | a run with one death, between link and unlink of a file, after which the move is lost |
| FolderMoveRuns.TwoDeathsStall | server/crashRecovery.ts:349-355 | a run with two deaths, the second inside a restore, that no number of startups completes unless one dies |
| FolderMoveRuns.ThreeDeathsStray | server/crashRecovery.ts:2658-2680 | a run with three deaths after which two staging names are each other's partner and the row goes astray, unless a startup dies before it does |
| FolderMoveRuns.TornRows | server/crashRecovery.ts:2658-2680 | a run with two deaths that tears the rows between both sides, unless a startup dies before it does |
| FolderMoveRescue.LostRowSinks | server/folderMoveV4Metadata.ts:560-820 | a row that can never agree with the others makes a move hopeless |
| FolderMove.FileMovesHopeless | server/documentFileLifecycle.ts:314-346 | moving a file helps no move that is lost |
| FolderMove.SettleKeepsSunk | server/crashRecovery.ts:2658-2694 | nor does any step of resolving a staging name |
| FolderMoveRecovery.HopelessSinks | server/crashRecovery.ts:1658-2083 | looking at the journal of a lost move leaves metadata recovery nothing more to do |
| FolderMoveRecovery.Startups | server/crashRecovery.ts:3269-3388 | over every run of startups, each dying at any step or not, a lost move stays lost and its journal stays; without deaths they do what the recovery function says |
| FolderMoveRescueRuns.NextRescue | server/crashRecovery.ts:2640-2694 | with rows adrift, one startup that dies brings them closer to agreement |
| FolderMoveRescueRuns.RescueExists | server/crashRecovery.ts:3269-3388 | from every state that is not lost, some run of startups, all but the last of which die, completes the move |
| FolderMoveRescueRuns.ThreeDeathsRescued | server/crashRecovery.ts:2670-2679 | a death between unlink and row move rescues the move that three deaths have stalled |
| VaultDisk.RivalsConserve | server/documentFileLifecycle.ts:234-259 | outside programs cannot lose a file's bytes other than by their own change |
| VaultDisk.Disk.Take | server/documentFileLifecycle.ts:293-293 | the takeover rename loses nothing and makes the bytes private |
| VaultDisk.Disk.Link | server/documentFileLifecycle.ts:314-315 | linking never replaces an existing path |
| VaultDisk.Disk.Unlink | server/documentFileLifecycle.ts:345-345 | a staging name is dropped only when the bytes have another name or were changed from outside |
| CreateOnlyMove.RestoreStagedGeneration | server/atomicTextWrite.ts:669-710 | a staged file goes back create-only or stays staged |
| CreateOnlyMove.TakeOver | server/documentFileLifecycle.ts:286-312 | the move goes on only with the expected inode and bytes, checked before and after the takeover |
| CreateOnlyMove.Land | server/documentFileLifecycle.ts:314-346 | the taken bytes end at the destination, back at the source, or stay staged |
| CreateOnlyMove.CreateOnlyMoveFile | server/documentFileLifecycle.ts:260-347 | with outside programs only the expected generation is ever linked at the destination; without them it moves exactly if the source is there as expected and the destination free, and outcome and all paths are determined |
| CreateOnlyMove.RecoverRenameStaging | server/crashRecovery.ts:2640-2694 | a leftover staging name is resolved without losing bytes or replacing a file |
| CreateOnlyMove.MoveAndRestart | server/crashRecovery.ts:2640-2694 | a move that dies, with recoveries that die: once the staging name is gone the file is under exactly one of its two paths |
| RenameReferences.CompletedMeansDesired | server/crashRecovery.ts:1215-1298 | a completed recovery leaves every referring document in the version of its direction |
| RenameReferences.CompletedBackPlaces | server/crashRecovery.ts:1299-1306 | a completed rollback leaves the document at its old path, with the text it was moved with, and the new path free |
| RenameReferences.CompletedBackIdentifies | server/crashRecovery.ts:1299-1443 | its identity goes back with it, exactly unless another document's identity is at the new path, and nobody else's changes |
| RenameReferences.OthersStay | server/crashRecovery.ts:1272-1306 | recovery changes no document but the referring ones and the renamed one |
| RenameReferences.ForwardIdentities | server/crashRecovery.ts:1215-1246 | forward, only an identity whose document is not the moved one is detached |
| RenameReferences.PayloadsGoToo | server/crashRecovery.ts:1154-1163 | a journal goes with all its payloads |
| RenameReferences.UndecidedStays | server/crashRecovery.ts:1154-1166 | a rename that was not decided, or was through, is only cleaned up |
| RenameReferences.RerunIsSame | server/crashRecovery.ts:1272-1298 | died among the references and run again, recovery comes to the same end |
| RenameReferences.BackAgainIff | server/crashRecovery.ts:1272-1298 | rolling back a document that is back already completes exactly if it does not refer to itself and the other references are unedited |
| RenameReferences.RecoverCompletesIff | server/crashRecovery.ts:1025-1449 | an undisturbed startup removes the journal exactly if the payloads are whole and document, identity and references are where its direction can use them |
| RenameReferences.EverCompletesIff | server/crashRecovery.ts:1025-1449 | over any number of startups that do not die the journal goes exactly if the first removes it, or if it only misses the identity to move back and the document does not refer to itself |
| RenameReferences.QuarantinedForGood | server/crashRecovery.ts:1025-1449 | a journal that an undisturbed startup leaves alone is left alone by every later one |
| RenameReferences.ReachMeans | server/crashRecovery.ts:1272-1286 | rewriting stops at the first reference that holds neither version |
| RenameReferences.RewrittenAgain | server/crashRecovery.ts:1280-1298 | rewriting references twice is rewriting them once |
| RenameRecovery.OutsideTextStays | server/crashRecovery.ts:1272-1298 | over every run with outside programs, a text in no version of a reference is never overwritten by recovery |
| RenameRecovery.NeverBackAgain | server/crashRecovery.ts:1254-1262 | over every run, once the direction is forward it stays so until the journal is gone with every payload |
| RenameRecovery.CleanupDeathStrands | server/crashRecovery.ts:1154-1163 | a run that dies in cleanup with a payload gone, after which no startup removes the journal |
| RenameRecovery.MoveBackDeathStrands | server/crashRecovery.ts:1299-1308 | a run of a rollback that would have completed, dead after its move, that no startup completes |
| RenameRecovery.Vault.ReplaceIfUnchanged | server/crashRecovery.ts:1287-1297 | also with outside programs, the one step it may add to the run rewrites a document that holds the version opposite to the direction at that moment |
| RenameRecovery.Vault.RewriteReferences | server/crashRecovery.ts:1272-1298 | every step of the loop is an allowed step of the run; undisturbed it rewrites as far as documents hold either version, and a death leaves a prefix rewritten |
| RenameRecovery.Vault.RecoverRollForward | server/crashRecovery.ts:1215-1246 | roll-forward never turns back, and completes only with the journal gone |
| RenameRecovery.Vault.RecoverRollBack | server/crashRecovery.ts:1247-1449 | roll-back ends in its own direction or turns forward once |
| RenameRecovery.Vault.RecoverRenameReferencesJournal | server/crashRecovery.ts:1025-1449 | the whole recovery equals its specification when undisturbed, and in any case only adds allowed steps to the run: rewrites of a version that is there, moves to a free path, payloads before the journal |
| RenameRecovery.Restart | server/crashRecovery.ts:3339-3388 | over startups that die, the first that completes leaves all references in one direction, and none completes if an undisturbed one would have left the journal alone |
| MetadataVersion.NextMetadataUpdatedAt | server/metadataVersion.ts:26-31 | versions strictly rise within the safe integers, and stop only at the largest |
| MetadataVersion.NextMetadataBatchUpdatedAt | server/metadataVersion.ts:38-47 | one version above every one of a batch, as small as that and the clock allow |
| MetadataTables.MoveIsInjective | server/documentMetadata.ts:1410-1421 | two paths below the source never move to one |
| MetadataTables.WithinMeans | server/documentMetadata.ts:1410-1421 | a prefix covers itself and what has it as leading components |
| MetadataTables.MoveMeans | server/documentMetadata.ts:1410-1421 | a move replaces the leading components and leaves other paths alone |
| MetadataTables.NoClashAhead | server/documentMetadata.ts:1430-1438 | shortest first, a moved path never equals one that still has to move, even when moving into an ancestor |
| PrefixPlanning.NextPathIsFree | server/documentMetadata.ts:1504-1513 | at its turn, a document's next path is free |
| PrefixPlanning.FinishOneMore | server/documentMetadata.ts:1537-1556 | at its turn, a migration row's final path is free, and the table is what the rows done so far make of it |
| PrefixPlanning.ChecksMeanFit | server/documentMetadata.ts:1464-1499 | the two collision checks pass exactly if no two migration rows would merge |
| PrefixPlanning.MovedDocumentsMean | server/documentMetadata.ts:1504-1513 | a document below the source gets its moved path and the version and nothing else |
| PrefixPlanning.MigrationsMovedMean | server/documentMetadata.ts:1515-1556 | a migration row goes to its moved path with its original path moved, and names the document it named |
| PrefixMove.Metadata.MoveDocuments | server/documentMetadata.ts:1504-1513 | updating documents one by one under the unique index equals renaming all at once, and the index never objects |
| PrefixMove.Metadata.MoveMigrations | server/documentMetadata.ts:1515-1556 | parking and rewriting migration rows one by one equals renaming all at once |
| PrefixMove.Metadata.AssertPrefixMoveSafe | server/documentMetadata.ts:1388-1408 | the guard passes exactly for moves that are neither onto themselves, nor into their own subtree, nor onto another document |
| PrefixMove.Metadata.AssertMigrationsSafe | server/documentMetadata.ts:1464-1499 | the migration checks pass exactly if no row would land on another |
| PrefixMove.Metadata.MoveDocumentMetadataPrefix | server/documentMetadata.ts:1423-1559 | the move succeeds exactly under its guards, with an exact error otherwise, renames everything below the source and nothing else, or has no effect |
| PrefixMove.Metadata.DeleteDocumentMetadataPrefix | server/documentMetadata.ts:1561-1583 | deletion removes what the documents own, keeps their migration rows as detached tombstones, and fails exactly if a tombstone is taken |
| PrefixDeletion.BuryOneMore | server/documentMetadata.ts:1300-1315 | burying one migration row keeps track of all others |
| PrefixDeletion.DeletionBuries | server/documentMetadata.ts:1300-1315 | the row at a deleted document's path becomes its tombstone, field by field |
| PrefixDeletion.DeletionDetaches | server/documentMetadata.ts:1579-1580 | every other row stays as it was, except that it loses a document that was deleted |
| PrefixDeletion.DeletionAddsNothing | server/documentMetadata.ts:1561-1583 | no other migration rows come up |
| PrefixDeletion.DeletionTakes | server/documentMetadata.ts:1561-1583 | documents below the prefix go with associations and embeddings, the others stay |
| PrefixPrediction.RowPrediction | server/folderMoveTransaction.ts:308-346 | which migration rows come out as predicted |
| PrefixPrediction.PredictionIsExact | server/folderMoveTransaction.ts:288-363 | the predicted snapshot equals what deletion and move leave exactly if every replaced document's migration row names it and keeps no original path below the source |
| PrefixPrediction.PredictedDocuments | server/folderMoveTransaction.ts:288-307 | what is predicted of each document and what it owns |
| PrefixPrediction.PredictedRow | server/folderMoveTransaction.ts:308-346 | what is predicted of each migration row, field by field |
| PrefixPrediction.RowsStillName | server/folderMoveV4Metadata.ts:679-757 | once committed, a row that names a document which is not replaced still names it |
| PrefixPrediction.UnownedRowHappens | server/folderMoveV4Metadata.ts:733-748 | a concrete graph, with what deletion and move make of it, on which the runtime mismatch is raised |
| PrefixPrediction.CommitPrefixTransition | server/folderMoveV4Metadata.ts:679-757 | the metadata commit is already done; done now, with the predicted result, exactly if the tables are as prepared, allow deletion and move, and are predictable; a conflict; or without effect |
| PrefixPrediction.MovableIff | server/documentMetadata.ts:1388-1408 | the move's guards after the deletion, said of the tables before it |
| MetadataRestore.RestoresIff | server/documentMetadata.ts:496-589 | inserts go through and the footprint reads as the snapshot exactly if paths, association ids and tags allow it beforehand |
| MetadataRestore.RestoredIsSound | server/documentMetadata.ts:496-589 | the database constraints hold after a restore |
| MetadataRestore.OutsideUntouched | server/documentMetadata.ts:496-589 | documents, embeddings and associations outside the footprint do not change |
| MetadataRestore.LooseRowsStay | server/documentMetadata.ts:540-568 | a migration row that the footprint does not name outlives the restore; it loses a footprint document and nothing else |
| MetadataRestore.TagsStay | server/documentMetadata.ts:571-589 | no live tag changes, one goes exactly if the failed mutation created it and nobody has it, and only the snapshot's come up |
| MetadataRestore.ReadShows | server/documentMetadata.ts:181-260 | the compared read shows every document of the footprint with all it owns, and the named tags and rows |
| MetadataRestore.MetadataStore.RestoreCASIdempotent | server/documentMetadata.ts:657-703 | which of the three states is answered, exactly, and that anything but restored-now leaves the tables alone |
| MetadataRestore.MetadataStore.RestoreTwice | server/documentMetadata.ts:657-703 | a second call after a restore finds it done |
| TagCollapse.CollapseKeepsMeaning | server/tagIdentityMigration.ts:204-243 | collapsing keeps every document's identities and leaves canonical, unique tags |
| TagCollapse.AffectedIsExact | server/tagIdentityMigration.ts:279-300 | exactly the affected documents come out with other tag rows or other displayed names |
| TagIdentityMigration.TagStore.ReadGroups | server/tagIdentityMigration.ts:265-274 | the groups partition the tags by identity, oldest first |
| TagIdentityMigration.TagStore.StageNamespace | server/tagIdentityMigration.ts:245-255 | a group's rows are set aside one by one under the unique index, or a collision is reported |
| TagIdentityMigration.Collided | server/tagIdentityMigration.ts:245-255 | a reported collision is one: a temporary name is somebody's already |
| TagIdentityMigration.IdentityIsFree | server/tagIdentityMigration.ts:338-343 | a survivor's identity is free when its row is rewritten |
| TagIdentityMigration.NextAssociations | server/tagIdentityMigration.ts:320-335 | repointing and deleting finishes exactly one group's associations |
| TagIdentityMigration.TagStore.FinishGroups | server/tagIdentityMigration.ts:312-344 | group by group the tables become the collapsed ones, and moved plus collapsed equals the losing associations |
| TagIdentityMigration.TagStore.AffectedDocuments | server/tagIdentityMigration.ts:279-300 | the loop collects exactly the affected documents |
| TagIdentityMigration.TagStore.VersionDocuments | server/tagIdentityMigration.ts:346-364 | exactly the affected versions rise, or none if one cannot |
| TagIdentityMigration.TagStore.WriteMigration | server/tagIdentityMigration.ts:257-388 | the migration yields the collapsed tables, exact counts and risen versions of exactly the affected documents; it succeeds if tags are valid, temporary names collide with nothing and versions can rise, its closing checks never fail, and an error leaves everything as it was |
| TagAssociations.TagTables.InsertOrGetTags | server/documentMetadata.ts:776-788 | every requested identity has a tag afterwards, a new one with the requested name, and no existing tag changed |
| TagAssociations.TagTables.ApplyDocumentTagsSetDiff | server/documentMetadata.ts:811-862 | the document has exactly the requested identities; the difference names every row once, kept rows keep their ids, other documents are untouched |
| TagAssociations.DiffIsExact | server/documentMetadata.ts:838-861 | deletions and inserts compose to an exact difference |
| TagMerge.BuildMergePlan | server/tagManagement.ts:569-652 | the plan lists exactly the source's documents and counts adds, removes and collapses as they are, none for a tag merged into itself |
| TagMerge.PlanIsUnique | server/tagManagement.ts:569-652 | the tables leave no choice about the plan |
| TagMerge.OneRowEach | server/tagManagement.ts:603-617 | a tag has one association row for each document that has it |
| TagMerge.MergedDocument | server/tagManagement.ts:1295-1311 | a document's tags after the merge, source replaced by destination |
| TagMerge.DeletesRows | server/tagManagement.ts:1296-1311 | as many rows are deleted as documents had the source, and the result is the merge |
| TagMerge.ApplyMerge | server/tagManagement.ts:1228-1346 | a merge succeeds exactly if both tags exist and differ, the reviewed plan is what is true and no version is at its limit; every holder then has the destination instead and a risen version, nothing else changes, and no row-count check can fail |
| TagPreview.PreviewTagOperationPage | server/tagManagement.ts:699-735 | a page starts after its cursor, is as long as limit and rest allow, and its own cursor leads on exactly if documents remain |
| TagPreview.WalkPreview | server/tagManagement.ts:661-735 | sample and pages list every affected document once, in order, and end |
| VaultWriter.NextKeepsInv | server/vaultWriterOwnership.ts:161-251 | every step of every process, failed system calls and deaths keep the ownership invariant |
| VaultWriter.FileIsLeft | server/vaultWriterOwnership.ts:177-221 | nobody touches the owner file while another process relies on it |
| VaultWriter.MutualExclusion | server/vaultWriterOwnership.ts:161-251 | at every state of every run at most one living process owns the vault, and the file holds its nonce |
| VaultWriter.DeadOwnerIsReplaced | server/vaultWriterOwnership.ts:180-221 | a process that finds a dead owner of its host and no guard, undisturbed, becomes the owner |
| VaultWriter.ReleaseFrees | server/vaultWriterOwnership.ts:229-251 | an owner that releases, left alone, frees the vault: the file is gone and the process idle |
| VaultWriter.FreeVaultIsTaken | server/vaultWriterOwnership.ts:161-176 | a process that finds no owner file, left alone, becomes the owner with its own record in it |
| VaultWriter.ReleasedIsTaken | server/vaultWriterOwnership.ts:229-251 | a released vault can be taken while the releaser still lives |
| VaultWriter.OwnerIsRespected | server/vaultWriterOwnership.ts:177-188 | a process that finds a living owner, or one of another host, gives up and leaves file and guard alone |
| VaultWriter.CalledOff | server/vaultWriterOwnership.ts:194-219 | a takeover that finds another owner than it read removes its guard and leaves the file |
| VaultWriter.FailureStrands | server/vaultWriterOwnership.ts:206-219 | a takeover that fails or dies after its guard is made, other than before the unlink, strands the guard |
| VaultWriter.StrandedStays | server/vaultWriterOwnership.ts:190-219 | nobody removes a stranded guard, and no takeover begins any more |
| WriteLockQueues.ReadyIffFront | server/documentWriteLock.ts:50-66 | a request may go ahead exactly when it is at the front of its key's queue |
| WriteLockQueues.OneHolder | server/documentWriteLock.ts:46-74 | each key has at most one holder |
| WriteLockQueues.SomeTaskIsReady | server/documentWriteLock.ts:76-87 | while a task is unfinished some task can step: sorted acquisition does not deadlock |
| WriteLockQueues.ArriveKeeps | server/documentWriteLock.ts:50-58 | a new request joins the end of its key's queue |
| WriteLockQueues.DepartKeeps | server/documentWriteLock.ts:69-74 | a release removes the front, and the tail map forgets the key exactly when nobody is left |
| DocumentWriteLock.WriteLocks.Enter | server/documentWriteLock.ts:46-60 | arrival order is queue order |
| DocumentWriteLock.WriteLocks.Grant | server/documentWriteLock.ts:60-66 | the lock is granted to the front of the queue |
| DocumentWriteLock.WriteLocks.Leave | server/documentWriteLock.ts:69-74 | release hands the key to the next in the queue |
| DocumentWriteLock.RunToCompletion | server/documentWriteLock.ts:46-87 | every schedule of any calls, arriving at any time, ends with all of them served and nothing left in the tail map |
| DocumentWriteLock.NothingQueued | server/documentWriteLock.ts:69-74 | when every task has finished the tail map is empty |

## Left out

Atomic replace:

- Modes, fsync, the validation of journal paths and managed Diary bytes: no part of the model.
- Inodes are never recycled, and a journal is written or rewritten in one step.
- Outside programs act on the target's path only, not through descriptors opened earlier; so the branches for an old generation that changes after the commit cannot be reached and are not modelled.
- ReplaceRecovery.Serve: with outside programs it states conservation only, and it ends when a recovery leaves a write in flight; all artifacts of one write share one identifier.
- Creating a file, conditional removal and its staging.

Folder move:

- FolderMove.Vault.RecoverRenameStagings: all staging names of a call are resolved at one reading of the clock; which path sorts first is a parameter of the plan.
- FolderMoveRescueRuns.RescueExists: the run chooses clock readings and the order of files and staging names, which in the server is that of directory listings.
- Outside programs, so the generation checks against them (source inventory, gate proof, parity, containment) appear as the facts they establish; journal parsing and provenance.
- The snapshot-restore disposition, and the older journal versions 1 to 3, which are quarantined before any of their code runs.
- FolderMove.Vault.CompleteFolderMoveMetadata: rows are moved in one step here; PrefixMove and PrefixPrediction model that step.

Create-only file move and rename references:

- VaultDisk: outside programs make no hard links, and `link()` does not fail for other reasons than an existing name.
- CreateOnlyMove.RecoverRenameStaging: partners are the two public paths; another staging name of the same inode is a partner in the folder move model only.
- RenameRecovery.Vault.ReplaceIfUnchanged: the atomic replace of a reference is one step, so a death inside it, with the reference absent and its own journal present, is in no run here (AtomicReplace and ReplaceRecovery model that).
- RenameRecovery: documents only, not folders; the create-only move back is one step; validation of the bundle is reduced to all payloads being there; outside programs do not touch payloads.
- RenameReferences.Plan: `AsWritten` assumes what the route writes, that the self-reference has the text the document was moved with.

Metadata and tags:

- LIKE is a prefix test: vault paths have no wildcard characters and one case.
- PrefixMove.Metadata.DeleteDocumentMetadataPrefix: history tombstones are not written.
- PrefixPrediction.CommitPrefixTransition: the footprint is the whole of the tables, and the closedness check of the snapshot is not modelled.
- MetadataRestore: snapshots whose association rows have no id (version 6), and restores without a footprint; row inserts of one table are one statement.
- TagIdentityMigration: the marker, health states and the counters for displays, identities and deleted rows.
- TagMerge.ApplyMerge: rename and remove operations, Undo recording, audit events, and the refusal of managed Diary paths.
- TagPreview: resolution of the tags and the stale answer when the fingerprint has changed.

Locks:

- VaultWriter: one acquisition or release at a time in a process; the liveness test is sound, and a pid is given to one living process of a host at a time.
- DocumentWriteLock: the structure lock and waiter counts; operations terminate. `withVaultMutation` (server/vaultMutation.ts) uses the same chain with one key and is not modelled again.

Elsewhere: the HTTP routes, the user interface, link index, frontmatter, history, assets, ledger, authentication and the AI tools.
