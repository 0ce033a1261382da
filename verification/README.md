# TAR Vault Sync: a verified model

TAR Vault Sync keeps secrets in an encrypted, versioned vault (a local file or a cloud object), notices when a
source has a new version of a secret, and applies the new value to local targets. This project models the parts of
it that are protocols and transformations, and proves what they promise.

- `VaultFormat`, `VaultView`: the encrypted file, its ideal sealed boxes, and the vault as a plain map from entry to
  kind, version and bytes. `LocalVault`: the vault object with its hand-written rollbacks, as classes. `Drive`: the
  cloud file behind revision tags, as classes over a server that other clients write to.
- `CloudVault` and `LocalHandles`: any number of devices on one cloud vault, and any number of handles on one local
  file, as interleaved steps; the main results are about every run.
- `Targets`: what a target is, the place in it that a binding writes, which places are independent of one another, and
  what an apply makes of a file's content. `CodecWitness`: encodings of text and documents that obey the laws assumed there.
- `Engine`: the sync engine as steps split where tasks interleave, with failing calls, failing writes, cancellation
  and crashes. `EngineLocks` (safety and progress of the gates), `EngineState` (memory, state file, configuration),
  `EngineAgreement` (what an answer says about the target), `EngineLifecycle` (disabled bindings, due restarts),
  `EngineRecords` (what an answer says about the record, policies and declared types),
  `EngineEdges` (concrete runs showing that the assumptions are needed), `EngineObjects` (the state updates and the
  saving of a configuration as objects with mutable fields).
- `Credential`: the chunked credential with its head entry as commit point, with a fault or a reader at every step.
- `KeyValue`, `JsonPointer`: setting one key of a dotenv or properties file and one value of a JSON document.
  `KeyValueLines`: which lines set a key, by their shape.
  `BrowserCsv`: the quote automaton and the import of a browser's password export.
- `AzurePages`: choosing the current version from a paged list. `Catalogue`: the catalogue of connections, its file and
  the handles on its vaults as objects. `CatalogueProcesses`: any number of processes on that file, as interleaved steps.
- `Basics`, `Decimal`: shared vocabulary and decimal numerals.

Assumptions that the proofs name: encryption is an ideal sealed box that opens only under its own key and associated
data, and key derivation is injective; JSON text is an injective encoding with an inverse; a YAML edit replaces the
one value it names and nothing else (`Targets.Lawful`, which `CodecWitness` shows to be satisfiable); no two encryptions
draw the same nonces; a revision tag names one revision for ever (in `CloudVault`
the tag is the revision's place in the history), and a conditional write commits if and only if its tag is current
(If-Match, section 13.1.1 of RFC 9110); one rename of a file takes place whole or not at all. The objects count in `faults` what fails for a reason outside the model, so that their contracts can say what is
answered when nothing does.

`EngineAgreement.Assumed` and `EngineAgreement.Exclusive` collect what the agreement of answers and targets needs of
the outside: a superseded version never becomes current again, no other program writes a target (it may delete a file
that one binding uses alone), and bindings of one object write disjoint places: different keys of a dotenv or
properties file, paths of a JSON or YAML document of which neither leads to the other, different entries of a
credential store. The program itself does not check this. `EngineEdges` has runs from a fresh start in which a version
recurs, two places overlap, or a file of two bindings is deleted, and in which an answer is then wrong. `Targets` shows
two ways in which keys that look different name one place (`KeysThatCoincide`), and that the one accepted key that
`Legible` excludes can be written without reading back (`IllegibleMisreads`).

Some promises turned out to hold only under a condition, and both sides are proved. Opening a vault checks counts
and membership, which is a bijection exactly when no version is shared (`AcceptedIsBijectiveIffVersionsDistinct`,
`CountCheckAdmitsSharedVersion`). A second write of a key wins over the first exactly when the first was not added
behind a bare CR in a file without CR LF (`SecondWriteWins`, `BareCrIsReachable`). A written value reads back
exactly when it does not replace a properties line for the key `export` that begins with `export `
(`WritesOneLine`, `ExportCaseIsReachable`). A credential is old or new at every moment except behind a head write
that takes effect and still reports an error, after which nothing may be readable (`KeyStore.Save`,
`CleanupBehindLandedHead`, `LostHeadLosesBoth`). A due restart is reported by every later sync exactly until a step
that `EngineLifecycle.Ends` names: the record of a failed or disabling sync, an acknowledgement, or a changed definition
(`WaitingEndsExactly`, `NeverForgottenExactly`, `FailedCheckForgetsRestart`), and a crash or a failed write
between the two records of an apply means that the restart never became due (`CrashBetweenWritesForgetsRestart`,
`SecondWriteFailureForgetsRestart`).

## Model

| member | source | states |
|---|---|---|
| VaultFormat.PayloadAadInjective | src/vault.rs:499-506 | associated data binds a payload to one entry and one version |
| VaultFormat.AcceptedIsBijectiveIffVersionsDistinct | src/vault.rs:522-535 | what opening checks amounts to a bijection between manifest and sealed store if and only if no version is shared |
| VaultFormat.CountCheckAdmitsSharedVersion | src/vault.rs:522-535 | a file with a shared version and an orphan payload passes the check made on opening |
| VaultFormat.VerifyAllIffFaithful | src/vault.rs:580-591 | full verification accepts exactly the files whose maps are in bijection with every payload opening for its entry |
| VaultFormat.EncodeLoads | src/vault.rs:428-468 | what is persisted for intact maps loads as the same maps under the same key and is refused under any other |
| VaultView.PutRefines | src/vault.rs:198-217 | a put under a fresh version keeps the vault intact and changes the plain map at its id only |
| VaultView.RemoveRefines | src/vault.rs:236-244 | a removed entry's payload is always there, the vault stays intact and only that id goes |
| VaultView.ImportRefines | src/vault.rs:295-298 | an import keeps the vault intact and adds its items to the plain map |
| VaultView.AddAllIsPointwise | src/vault.rs:295-298 | each imported item reads back as given and every other id reads as before |
| VaultView.EditRefines | src/vault.rs:187-308 | every accepted edit of the two maps is the edit of the plain map that it stands for |
| VaultView.GetValueIsLookup | src/vault.rs:345-356 | on intact maps a read is a lookup: missing, wrong version, or exactly the stored bytes; never corrupt |
| VaultView.GetAfterPut | src/vault.rs:187-356 | after a put the new version returns the bytes put, any other version conflicts, other ids read as before |
| VaultView.PayloadOpensOnlyAtItsEntry | src/vault.rs:561-578 | a sealed payload opens at the entry and version it was sealed for and nowhere else |
| VaultView.FollowsRefines | src/vault.rs:187-308 | a file written by one accepted edit on an intact file is intact, and its plain map is that of the other with the edit made |
| VaultView.ChainReplays | src/vault.rs:187-308 | every file in a chain of such edits holds the first plain map with the edits so far applied in order |
| LocalVault.PutUndone | src/vault.rs:218-228 | the undo of a put restores both maps exactly |
| LocalVault.RemoveUndone | src/vault.rs:245-249 | the undo of a removal restores both maps exactly |
| LocalVault.ImportStacks | src/vault.rs:295-306 | the entries of an import lie on top of the two old maps, so taking them out again uncovers those |
| LocalVault.FileSystem.AtomicReplace | src/vault.rs:639-656 | after each of its steps every file is as before, or the one file holds all of the new bytes; at most this call's temporary file is left over |
| LocalVault.FileSystem.Rename | src/vault.rs:659-694 | the replaced file becomes exactly what the temporary file holds, or nothing changes |
| LocalVault.FileSystem.CreateNew | src/vault.rs:625-637 | an existing file is never overwritten |
| LocalVault.Vault.CheckActive | src/vault.rs:392-400 | after the idle timeout key and maps are cleared and the answer is that the vault is locked |
| LocalVault.Vault.TakeMaps | src/vault.rs:406-419 | the bytes read become the maps exactly if they load and, for a cloud edit, hold the manifest that was held |
| LocalVault.Vault.Reload | src/vault.rs:406-419 | the maps become those of the stored file; a cloud edit insists on the manifest it held; a failure changes neither map |
| LocalVault.Vault.Persist | src/vault.rs:428-468 | success puts exactly the held maps in place of the file, or directly after the cached revision |
| LocalVault.Vault.UndoPut | src/vault.rs:219-226 | taking the new version out and putting the old one back leaves exactly the maps before the put |
| LocalVault.Vault.SavePut | src/vault.rs:207-228 | success is the edited maps, saved; failure leaves both maps and a local file exactly as they were |
| LocalVault.Vault.PutLoaded | src/vault.rs:198-229 | a put after its reload uses a version that no sealed payload has |
| LocalVault.Vault.Put | src/vault.rs:187-230 | a put commits one edit on the maps then in the store, or rolls back; undisturbed it is refused only when idle, for its arguments, or for what the store holds |
| LocalVault.Vault.SaveRemove | src/vault.rs:236-250 | as for a put; the missing-payload branch is never taken |
| LocalVault.Vault.Remove | src/vault.rs:232-251 | a removal commits one edit on the maps then in the store, or rolls back; an entry is called missing only if the reloaded maps lack it, and undisturbed nothing else but idleness and a bad store refuses it |
| LocalVault.Vault.DrawItems | src/vault.rs:261-294 | an accepted batch has 1 to 1000 safe, new, different ids and different fresh versions, in the batch's order |
| LocalVault.Vault.SaveImport | src/vault.rs:295-307 | all items are saved in one write, or both maps are exactly those before |
| LocalVault.Vault.TakeOut | src/vault.rs:299-305 | the undo loop removes every item of the import and nothing else |
| LocalVault.Vault.ImportNew | src/vault.rs:254-308 | an import commits all of its entries as one edit or none of them; undisturbed it is refused only when idle, for what the store holds, or for a batch that is not importable beside it |
| LocalVault.Vault.Get | src/vault.rs:338-356 | whatever a read says about an entry it says from freshly loaded maps, for a cloud vault those of a revision current during the call; undisturbed, an active handle answers from the maps in the store and is locked only past the idle time |
| LocalVault.Vault.Backup | src/vault.rs:359-367 | only a fully verified file is copied, unchanged, to a path that was free: the local file, or a revision that was the server's current one during the call |
| LocalVault.OpenBytes | src/vault.rs:158-182 | a handle is opened exactly if the file and the passphrase belong together, a cloud file being intact as well, and holds the file's maps under the derived key |
| LocalVault.Unlock | src/vault.rs:153-156 | the handle holds the maps of the file at the path |
| LocalVault.Create | src/vault.rs:127-151 | a new vault is an empty intact one under a passphrase of 12 to 4096 characters, and no existing file is touched |
| LocalVault.Recover | src/vault.rs:370-384 | the recovered vault holds exactly the intact maps of the backup, whose file is copied unchanged |
| LocalVault.VaultSource.PutEntry | src/vault.rs:792-819 | a locked source refuses, and an edit that finds the vault locked locks the source |
| Drive.RemoteFile.ReadRemote | src/drive.rs:402-454 | the bytes returned are those of the one revision whose tag is then cached, current at some moment of the call; a failure keeps the cache; undisturbed the current revision is returned |
| Drive.RemoteFile.WriteRemote | src/drive.rs:455-482 | success is one new revision with these bytes directly after the cached one; a failure keeps the cached pair; undisturbed only an overtaken cache conflicts |
| Drive.StrongIsAccepted | src/drive.rs:96-106 | every strong tag of printable text up to 1024 characters is accepted |
| Drive.AcceptedIsStrong | src/drive.rs:96-106 | no other tag is, weak ones in particular, except a quote that is not closed |
| CloudVault.RunKeepsInv | src/vault.rs:187-308 | in every run of any number of devices every revision is intact and every cached pair, snapshot and request is true |
| CloudVault.NoLostUpdate | src/vault.rs:406-419 | every committed revision is the preceding one with exactly one accepted edit, made by a device that held the manifest of that revision already before it reloaded |
| CloudVault.VaultIsReplayOfLog | src/vault.rs:187-308 | the stored vault is the first plain map with all committed edits applied in order |
| CloudVault.ConfirmedCallsHaveTheirOwnRevisions | src/drive.rs:455-482 | in every run each call answered with success made the one revision directly after the one it was based on, and two such calls never share a revision, even if their edits are equal |
| CloudVault.OvertakenNeverCommits | src/drive.rs:455-482 | a request whose tag was overtaken is never committed later, so a lost answer cannot overwrite newer edits |
| CloudVault.CacheAndRollback | src/drive.rs:402-482 | a cached pair is always a true revision, and a failed edit leaves intact maps, those of the cached revision |
| CloudVault.SnapshotIsTakenOver | src/vault.rs:406-419 | a call takes over the maps of the cached revision, and only an edit whose device held another manifest is refused instead |
| CloudVault.EveryRevisionIntact | src/vault.rs:522-535 | manifest and sealed store are in bijection, and every payload opens, in every reachable cloud vault |
| LocalHandles.RunKeepsInv | src/vault.rs:608-656 | under the lock every handle past its reload works on the file as it still is |
| LocalHandles.FileIsSerial | src/vault.rs:187-308 | at every moment the file is the first one with all successful edits applied one after another |
| LocalHandles.ReaderSeesWholeFile | src/vault.rs:402-426 | a reader without the lock sees one file written whole |
| LocalHandles.FailedEditLeavesNoTrace | src/vault.rs:218-228 | a failed edit leaves the file alone, frees the lock and puts back the reloaded maps |
| EngineLocks.RunKeepsLocks | src/core.rs:598-647 | every gate and the state mutex are held by exactly the task recorded as holder, in every run |
| EngineLocks.NoOverlap | src/core.rs:603-609 | no two calls for one binding overlap past its gate, no two applies to one target identity overlap, one task at a time holds the state |
| EngineLocks.SomeTaskCanMove | src/core.rs:786-793 | following the holders from binding gate to target gate to mutex ends at a task that can move |
| EngineLocks.NoDeadlock | src/core.rs:598-647 | in every reachable state with an unfinished task some task can move |
| EngineLocks.MaximalRunsFinish | src/core.rs:598-812 | task steps that go on while anything can move end, within a bounded number, with every call answered |
| EngineState.ConfigAndStateAgree | src/desktop.rs:385-427 | at every point of any run with crashes, what the state file records as applied was applied under the definitions in the configuration file, and memory equals the state file outside the mutex |
| EngineState.InvKept | src/core.rs:619-635 | no event breaks the agreement of memory, state file and configuration file |
| EngineAgreement.EqualVersionIsReached | src/core.rs:755-770 | an equal recorded version means that the target holds that release, given versions that do not recur |
| Targets.LineKept | src/targets.rs:224-270 | setting one key of a file leaves what another key reads as |
| Targets.JsonKept | src/targets.rs:173-188 | replacing one JSON value leaves the values at all incomparable paths |
| Targets.YamlWritten | src/targets.rs:273-325 | a YAML or compose value reads back, through compose interpolation for a compose file |
| Targets.YamlKept | src/targets.rs:273-325 | and every value at an incomparable path reads as before |
| Targets.RenderHolds | src/targets.rs:52-88 | an apply of any kind that succeeds leaves its payload readable in its place |
| Targets.GitCredentialsAreOneLine | src/targets.rs:443-446 | a git credential is refused exactly if it is empty or holds a line break or NUL |
| Targets.RenderKeeps | src/targets.rs:52-88 | and leaves what every disjoint place of the same object holds |
| Targets.TextAboveDestroys | src/targets.rs:186 | a text written above another path leaves nothing at that path |
| Targets.KeysThatCoincide | src/targets.rs:291-321 | YAML pointers with more slashes name the same place, and so do a compose key and its pointer |
| Targets.IllegibleMisreads | src/core.rs:411-423 | the properties key `export` is accepted and can be written without reading back |
| EngineAgreement.OtherContentKept | src/core.rs:786-799 | an apply leaves what every other binding with a disjoint place of the same object reads there |
| EngineAgreement.RunKeepsInv | src/core.rs:731-812 | targets, records and the tasks in between stay consistent over runs with failures, cancellations and crashes |
| EngineAgreement.AnswerAgreesWithTarget | src/core.rs:731-812 | whenever a sync answers Unchanged, Applied or RestartRequired, its place in the target holds the payload of the version it observed |
| EngineLifecycle.DisabledIsLeftAlone | src/core.rs:609-612 | once a binding is recorded as disabled, a sync of it answers Disabled and works on neither source nor target |
| EngineLifecycle.DisabledPersists | src/core.rs:648-669 | a disabled binding stays disabled, in memory and on disk, through exactly the steps other than writing its enabling or replacing its definition |
| EngineLifecycle.DisabledStaysAlone | src/core.rs:609-612 | along every run without such a step it stays disabled, and no sync of it asks the source or writes the target |
| EngineLifecycle.WaitingEndsExactly | src/core.rs:619-635 | a due restart stays due through a step if and only if the step does not record a failed or disabling sync or an acknowledgement of that binding, or a state without a redefined binding; a successful sync never ends it |
| EngineLifecycle.NeverForgottenExactly | src/core.rs:619-635 | over a run, crashes and config saves included, it is due at every moment if and only if no step is of that kind |
| EngineLifecycle.RestartKeepsBeingReported | src/core.rs:755-770 | from the moment a restart is due, along every such run, every agreeing answer for that Docker binding is RestartRequired |
| EngineLifecycle.DockerApplyMakesRestartDue | src/core.rs:800-811 | the second state write after a Docker apply makes the restart due |
| EngineRecords.AnswersAreOnRecord | src/core.rs:613-647 | what a call answers is on record in memory and on disk when it answers: a sync's outcome and observed version, an enabling, an acknowledgement |
| EngineRecords.RefusedWithoutEffect | src/core.rs:660-712 | in every run a state update is refused exactly for an enabling of a binding that is not disabled and an acknowledgement of a restart that is not due |
| EngineRecords.OthersRecordsStay | src/core.rs:619-635 | in every run the steps of a call leave the records of all other bindings as they were |
| EngineRecords.DisabledAnswerSilences | src/core.rs:628-630 | in every run a sync that answers Disabled leaves its binding disabled in memory and on disk |
| EngineRecords.DisabledAnswerSticks | src/core.rs:609-630 | after such an answer no sync of the binding works until it is enabled or redefined |
| EngineRecords.DisabledByPolicy | src/core.rs:735-742 | in every run only bindings whose policy for a missing target says so are disabled |
| EngineRecords.MissingAsksOnlyToRecreate | src/core.rs:735-742 | in every run a sync whose file is missing asks its source only under the policy that recreates it |
| EngineRecords.OnlyRecreateCreates | src/targets.rs:61-69 | a missing file is created only under the policy that recreates it |
| EngineRecords.OnlyDeclaredTypesApplied | src/core.rs:752-784 | in every run a target is written only with a payload of the declared type and a version that may be recorded |
| EngineRecords.SaveKeepsUntouched | src/desktop.rs:385-427 | no step of a save ends that a binding is disabled or that a restart is due, or changes its records, unless the save touches its definition |
| EngineRecords.SaveForgetsTouched | src/desktop.rs:385-403 | the invalidation leaves no record of an id that the save adds, removes or redefines |
| EngineEdges.RecurringVersionMisleads | src/core.rs:755-770 | a run from a fresh start in which a recurring version makes a sync answer Unchanged over other content |
| EngineEdges.FailedCheckForgetsRestart | src/core.rs:621-627 | a run from a fresh start in which an apply makes a restart due, a failed check overwrites it, and the next sync answers Unchanged |
| EngineEdges.CrashBetweenWritesForgetsRestart | src/core.rs:803-811 | a run from a fresh start in which a crash between the two state writes of a Docker apply loses the restart |
| EngineEdges.SecondWriteFailureForgetsRestart | src/core.rs:619-635 | and one in which the second of these writes fails |
| EngineEdges.OverlappingPointersMislead | src/targets.rs:186 | a run in which applying one field destroys a field inside it, whose next sync answers Unchanged |
| EngineEdges.SharedFileDeletionMisleads | src/targets.rs:61-69 | a run in which a deleted file of two bindings is recreated by one, and the other answers Unchanged without its line |
| EngineObjects.Engine.Update | src/core.rs:619-635 | a state update is computed, written, and only then visible in memory; a failure changes neither, and only a refused update or a failed write fails |
| EngineObjects.Engine.InvalidateBindings | src/core.rs:586-597 | all the ids are forgotten in memory and on disk, or none |
| EngineObjects.WithoutChanged | src/desktop.rs:385-398 | forgetting exactly the ids whose definitions differ keeps the records of all others |
| EngineObjects.Desktop.ChangedIds | src/desktop.rs:385-398 | the changed set is exactly the ids that the two configurations do not both define in the same way |
| EngineObjects.Desktop.DrainSchedules | src/desktop.rs:399-402 | every schedule has ended and none stays listed |
| EngineObjects.Desktop.SpawnSchedules | src/desktop.rs:1616-1634 | every binding of the running engine has exactly one running schedule |
| EngineObjects.Desktop.Exchange | src/desktop.rs:403-427 | state and configuration are those of the parts that succeed, and at no moment does the state file mention an id whose definition in the configuration file is another than the one it was recorded under |
| EngineObjects.Desktop.SaveConfig | src/desktop.rs:357-428 | success is a new engine on the new configuration; every failure keeps engine and configuration file and has its cause; a configuration changed elsewhere is never overwritten; records of bindings defined alike in both configurations survive on every way out, those of all others are gone once invalidated; on every way out each binding has one running schedule, and the earlier schedules have ended |
| EngineObjects.SaveIsItsSteps | src/desktop.rs:399-427 | whichever parts of a save succeed, its steps in the engine model lead to the configuration, the file and the state that the method leaves |
| EngineObjects.UpdateIsItsSteps | src/core.rs:619-635 | refused, unwritten or written, the steps of a state update in the engine model do what the method does |
| Credential.ChunkIdInjective | src/cloud_auth.rs:137-139 | within one credential the chunk names of different generations and places differ |
| Credential.ChunkIdSeparatesCredentials | src/cloud_auth.rs:137-139 | ids of equal length never share a chunk name |
| Credential.ChunkIdCollision | src/cloud_auth.rs:137-139 | ids of different lengths can share one |
| Credential.ChunkCounts | src/cloud_auth.rs:89-96 | encodings of 1 to 65536 bytes give exactly the 1 to 33 chunks that reading a head accepts |
| Credential.ConcurrentReadNeverMixes | src/cloud_auth.rs:152-167 | a reader beside any number of saves gets an error or the complete bytes of the generation whose head it read |
| Credential.CompleteReads | src/cloud_auth.rs:152-167 | a head with all its chunks in place reads back what its generation was written with |
| Credential.PrunedReads | src/cloud_auth.rs:146-151 | removing chunks of one generation keeps every other generation readable and never changes what a read returns |
| Credential.OtherCredentialsUntouched | src/cloud_auth.rs:86-151 | what touches only names that begin with one id leaves every other credential of that id length as it was |
| Credential.CleanupBehindLandedHead | src/cloud_auth.rs:109-112 | once the head names a generation, cleaning that generation up leaves it readable exactly while no chunk is gone |
| Credential.LostHeadLosesBoth | src/cloud_auth.rs:105-112 | a content that such a cleanup leaves with neither the old nor the new credential readable |
| Credential.KeyStore.ReadCredential | src/cloud_auth.rs:152-167 | a read returns all the bytes the head promises, or an error, and without a fault exactly what the content says |
| Credential.KeyStore.RemoveChunks | src/cloud_auth.rs:146-151 | every moment lacks only chunks of that generation; success leaves none of them |
| Credential.KeyStore.WriteGeneration | src/cloud_auth.rs:99-108 | every moment of writing chunks and head reads as the complete old or the complete new bytes |
| Credential.KeyStore.Save | src/cloud_auth.rs:86-117 | old or new at every moment unless a head write lands behind an error; Ok means new with the old chunks gone; too large a credential changes nothing; without a fault only size, names or an unreadable head refuse it |
| Credential.KeyStore.Disconnect | src/cloud_auth.rs:168-173 | every moment reads as before or fails; success leaves nothing of the credential |
| KeyValue.LinesOfSource | src/targets.rs:226 | splitting into lines loses nothing and breaks only behind LF |
| KeyValue.SuccessiveIsOnePass | src/targets.rs:210-218 | the successive replacements escape each character once, none what an earlier one wrote |
| KeyValue.EncodedDecodes | src/targets.rs:210-218 | every value comes back from its written form; the closing quote is never met early |
| KeyValue.RewriteLines | src/targets.rs:224-260 | the loop rewrites the line that sets the key, keeps the others, and fails on a second one |
| KeyValue.RenderKeyValue | src/targets.rs:199-271 | the rendering is the specified update of the file's lines, and an error for non-UTF-8, line breaks, NUL and duplicates |
| KeyValue.LinesWritten | src/targets.rs:224-270 | nothing written is ever split into more lines or joined with another line |
| KeyValue.WritesOneLine | src/targets.rs:224-270 | exactly one line sets the key, every other line is unchanged in its place, and the value reads back if and only if the `export` case does not apply |
| KeyValue.OtherKeysRead | src/targets.rs:224-270 | every other key reads as before |
| KeyValue.NewlineKept | src/targets.rs:219-223 | a write changes the detected newline if and only if it adds behind a bare CR in a file without CR LF |
| KeyValue.SecondWriteWins | src/targets.rs:199-271 | a second write gives the file that it alone would have given, if and only if the bare CR case does not apply |
| KeyValue.WritesCommute | src/targets.rs:199-271 | writes to two different present keys commute and do not make each other fail |
| KeyValueLines.PropertiesLineSets | src/targets.rs:230-238 | a properties line sets the key at its beginning before white space, an equals sign or a colon |
| KeyValueLines.PropertiesLineShape | src/targets.rs:230-238 | and no other line sets it |
| KeyValueLines.DotenvLineSets | src/targets.rs:239-246 | a dotenv line sets the key before its first equals sign, whatever white space surrounds it |
| KeyValueLines.ExportedLineSets | src/targets.rs:239-246 | behind `export ` as well |
| KeyValueLines.DotenvLineShape | src/targets.rs:239-246 | and no other line sets it |
| KeyValueLines.WrittenLine | src/targets.rs:247-269 | the line written has an `export ` only where one stood, and the file's own newline unless the line it replaces had none |
| KeyValue.BareCrIsReachable | src/targets.rs:219-223 | a file in the bare CR case |
| KeyValue.ExportCaseIsReachable | src/targets.rs:247-250 | a file in the `export` case |
| KeyValue.DollarsSurvive | src/targets.rs:314-325 | doubled dollar signs keep a value out of compose interpolation and give it back |
| JsonPointer.TwoPassesAreOne | src/targets.rs:415-417 | on every token the two replacements are the one-pass decoder of section 4 of RFC 6901 |
| JsonPointer.UnescapeEscape | src/targets.rs:415-417 | unescaping inverts escaping, whose results are valid tokens |
| JsonPointer.EscapeUnescape | src/targets.rs:415-417 | escaping inverts unescaping on valid tokens |
| JsonPointer.PassOrderMatters | src/targets.rs:415-417 | with the replacements in the other order a token would name another field |
| JsonPointer.PathOfPointer | src/targets.rs:186 | every path has a pointer that denotes it |
| JsonPointer.IndexInjective | src/targets.rs:186 | different tokens never denote the same array element |
| JsonPointer.ReadsBack | src/targets.rs:186 | a replacement reads back at its path and below |
| JsonPointer.ReadAbove | src/targets.rs:186 | above its path the document holds the old value with that one replacement |
| JsonPointer.OthersUntouched | src/targets.rs:186 | every path neither above nor below reads as before |
| JsonPointer.ReplacementsCommute | src/targets.rs:186 | replacements at incomparable paths commute |
| JsonPointer.SecondReplacementWins | src/targets.rs:186 | a second replacement at the same path wins |
| JsonPointer.RendersExactly | src/targets.rs:173-188 | a write succeeds exactly for a document that has the field and, for a JSON secret, text that is JSON |
| JsonPointer.WriteIsFramed | src/targets.rs:173-188 | a written file holds the secret's value at the key, parsed for a JSON secret and as a string otherwise, and the old values at all incomparable pointers |
| JsonPointer.ValuesArrive | src/targets.rs:181-185 | a JSON secret arrives as the value it spells, any other secret as a string |
| JsonPointer.EmptyFileRefuses | src/targets.rs:174-175 | in an empty file no field can be set, since only present fields are replaced |
| JsonPointer.WritesCommute | src/targets.rs:173-188 | two writes of a file at incomparable pointers commute |
| BrowserCsv.StrictQuotes | src/browser_import.rs:130-154 | the loop's verdict is that of the automaton, with malformed told from incomplete |
| BrowserCsv.QuotesExact | src/browser_import.rs:130-154 | a text is accepted if and only if it splits into bare fields without quotes and well-quoted fields |
| BrowserCsv.SplitUnique | src/browser_import.rs:130-154 | and then in one way only |
| BrowserCsv.AssembledSplits | src/browser_import.rs:130-154 | every well-formed text splits into the fields and separators it was made of |
| BrowserCsv.ReadHeader | src/browser_import.rs:93-114 | the columns, or a refusal of unknown, repeated or missing names |
| BrowserCsv.ReadRow | src/browser_import.rs:78-91 | an entry under its numbered id, or a refusal of a wrong count, a 1001st record, an empty url or password |
| BrowserCsv.Parse | src/browser_import.rs:47-126 | the entries of exactly the importable texts |
| BrowserCsv.ExportRecords | src/browser_import.rs:61-77 | an export's records are its rows, whatever separators, line breaks and quotes its fields contain |
| BrowserCsv.ExportsComeBack | src/browser_import.rs:47-126 | writing a header and 1 to 1000 valid records in any quoting and importing the text returns the records in order |
| BrowserCsv.EntryAt | src/browser_import.rs:78-91 | the entry of a record holds each of its values under the name its column has in the header |
| BrowserCsv.AcceptedHeaders | src/browser_import.rs:93-114 | a header is accepted exactly if it has the six known texts only, none twice, one spelling of the notes at most, and the three required ones |
| BrowserCsv.ImportedFields | src/browser_import.rs:78-102 | each entry holds under its literal name the value in the column of that text, has no other fields, and has a url and a password |
| BrowserCsv.IdsAreDistinctLabels | src/browser_import.rs:88-91 | the ids of one import are different labels that a vault accepts |
| BrowserCsv.IdExamples | src/browser_import.rs:88-91 | the ids of the first, the 42nd and the 1000th record |
| AzurePages.OrderIndependent | src/azure.rs:254-268 | if an item says what its id says, order and repetition of items make no difference |
| AzurePages.OrderMattersOtherwise | src/azure.rs:254-268 | one version listed twice with different attributes is taken or refused by their order |
| AzurePages.TakeKeepsBest | src/azure.rs:254-268 | the fold keeps the first newest item and whether another version ties with it |
| AzurePages.TakePage | src/azure.rs:254-268 | one page extends the fold over all pages before it, or names an item that is not a version of the secret |
| AzurePages.Choose | src/azure.rs:272-280 | after the last page the answer is the specified choice from all items |
| AzurePages.GetVersion | src/azure.rs:241-284 | for any split into at most 100 different pages the answer is the specified choice from the flat list; only a whole listing is answered with a version, and with one that is current in it |
| AzurePages.SelectedIsCurrent | src/azure.rs:214-280 | a chosen version is the 32 hex digits in the id of a listed item newer than all other ids, enabled, valid and not expired |
| AzurePages.OursExactly | src/azure.rs:214-223 | an id belongs to the secret exactly if it is its address, a slash and 32 hex digits |
| AzurePages.CurrentIsSelected | src/azure.rs:254-280 | and such an item is chosen, if an item says what its id says |
| CatalogueProcesses.RunKeepsInv | src/sources.rs:368-401 | in every run of any number of processes, crashes included, a process past its comparison holds the lock over the file it compared |
| CatalogueProcesses.EveryContentIsOneEdit | src/sources.rs:368-401 | every content of the catalogue file is the one before it with exactly one edit applied |
| CatalogueProcesses.StaleNeverOverwrites | src/sources.rs:386-388 | a process replaces only the content it last read or wrote, by its own edit of it; one that finds another content gives up |
| CatalogueProcesses.CallsAgreeWithFile | src/sources.rs:368-401 | what a process holds is a content the file had; a failed call leaves it at that, and after a successful one it is what the file holds |
| CatalogueProcesses.PersistIsItsSteps | src/sources.rs:368-401 | without others in between, the steps of a call leave the whole new list over the known content, or nothing when the lock is taken or the content is another |
| CatalogueProcesses.IdsKeepTheirPlace | src/sources.rs:196-215 | in every run an id that was never absent keeps its place, or its provider and file id |
| Catalogue.IdsAreNotRepointed | src/sources.rs:196-215 | the same of every history of single edits |
| Catalogue.CheckedIsDistinct | src/sources.rs:80-101 | a catalogue is accepted only if its ids are all different |
| Catalogue.ContentIsWellKeyed | src/sources.rs:68-101 | an accepted catalogue has at most 64 connections, each valid and under its own id |
| Catalogue.AzureNames | src/azure.rs:21-40 | names of Azure vaults and entries at the edges of the rules |
| Catalogue.CataloguedAzureIsDirect | src/sources.rs:251-277 | cataloguing an Azure vault moves no binding that names the vault directly |
| Catalogue.RoutedWhereItPoints | src/sources.rs:251-277 | a reference keeps its entry and is read from where its connection points; a reference of another kind is refused |
| Catalogue.Disk.Persist | src/sources.rs:368-401 | success replaces exactly the content this process knew, one edit on; a stale process replaces nothing, given that others write by single edits, which `CatalogueProcesses` shows |
| Catalogue.Sources.Add | src/sources.rs:131-170 | memory, file and handles gain exactly this connection, or nothing in memory changes; undisturbed it is refused only for the connection, a full catalogue, a used id or a file changed elsewhere |
| Catalogue.Sources.Remove | src/sources.rs:171-194 | the connection and its handle go and the handle is locked, or nothing in memory changes |
| Catalogue.Sources.Reconnect | src/sources.rs:196-242 | only the credentials of a drive connection change, under a new handle, with the old one locked |
| Catalogue.Sources.ValidateRef | src/sources.rs:243-277 | a reference is good if and only if it names a file or drive connection of its kind, the built-in vault or an Azure secret |
| Catalogue.Open | src/sources.rs:64-110 | an opened catalogue is the file's content with a handle for every file and drive connection and no other; a bad catalogue is refused whole, and undisturbed no other |

## Left out

- Real cryptography, key derivation and randomness: sealed boxes are ideal, and a fresh version or generation is an arbitrary value checked or required to be new.
- LocalVault.Vault.Put: a drawn version that collides is drawn again by the program; here such a draw counts as a fault, so termination of the drawing loop is not modelled.
- LocalVault.Vault.Persist: the size of the encoded file is not computed; exceeding the limit is one of the failures that can happen at any write.
- LocalVault.FileSystem.AtomicReplace: symbolic links, file modes and the Windows replacement call are not modelled; temporary files have names of their own, which no vault or backup uses.
- `get_version` and `entries` of a vault are reads of the manifest like `LocalVault.Vault.Get` and are not modelled separately.
- LocalVault.VaultSource.PutEntry: stands for the other guarded calls of `VaultSource`, which wrap the vault in the same way.
- CloudVault.NoLostUpdate: a tag that changes without a new content (a change of metadata only) is not modelled; it could only make a write fail.
- LocalHandles.FileIsSerial: deleting the vault file or its lock file while handles are open is not modelled.
- The engine is modelled on values, as steps of a state machine, because its tasks interleave; `EngineObjects` ties its state updates and the saving of a configuration to objects. Gates are keyed by identity rather than kept as shared objects.
- EngineAgreement.AnswerAgreesWithTarget: starts from a state file without records, and needs the assumptions of `EngineAgreement.Assumed` and `EngineAgreement.Exclusive`; external editors of configuration and state files, and different spellings of one path, are not modelled.
- Targets.YamlWritten: the YAML editor is an assumed law on mappings; anchors, aliases, duplicate keys and several documents are not modelled.
- Targets.RenderHolds: the entries of one credential helper are taken to be separate for each protocol, host, path and user name; the error categories of an apply are one target error; checks of paths and of `env_file` relations are one arbitrary failure.
- EngineObjects.Desktop.SaveConfig: the validation of the edited bindings is an arbitrary refusal; what a schedule does between its start and its end is in `Engine` only.
- Catalogue.Disk.Persist: is one method under the lock; its steps, with other processes in between, are in `CatalogueProcesses`, whose `PersistIsItsSteps` ties the two.
- The event log enters only as a write that may fail; its rotation, the scheduler's delays and retry counts are left out as small arithmetic.
- Credential.KeyStore.Save: the JSON encoding of the credential is an arbitrary nonempty byte string, and its fresh generation is required to be unused.
- KeyValue.WritesOneLine: reads values back by the escaping rules of the renderer; a Java properties loader additionally skips white space around a separator and continues lines ending in a backslash, which is not modelled.
- JsonPointer.WriteIsFramed: JSON text is idealised, so formatting, duplicate names and number spellings are not modelled.
- BrowserCsv.Parse: the record reader of csv-core is specified by its standard rather than modelled, decoding of UTF-8 is a parameter, an entry's JSON text is the map it encodes, and a second byte order mark counts as data.
- AzurePages.GetVersion: the transport answers each link in an arbitrary but fixed way, which loses nothing since no link is asked for twice; the check of a link is a parameter; token handling and HTTP are left out.
- Catalogue.Sources.Add: what the file system says about a path is an arbitrary refusal; edits of the catalogue by other programs are not modelled.
- Setting up Git Credential Manager and probing it rest on external programs.
- OAuth login, token refresh, Drive folder listing, inter-process messages, command-line modes and all user interface code.
