# Verified model of the integration manager and the lamp controllers

This Dafny project models the parts of the repository whose correctness is hardest to see by reading
one function: the manager's journaled change engine, the lamp experiments with guarded clean-up, the
serialized lamp client with its coordinator and power memory, the two stream decoders, the passive
packet audit, the catalog's cycle check, the archive check and the colour arithmetic. `dafny verify
dfyconfig.toml` checks all of it. The first file to read of each part is named below.

**Change engine** (`InstalledRegistry.dfy`, `TransactionDisk.dfy`, `DurableSteps.dfy`, `LifecycleManager.dfy`,
`ChangeExamples.dfy`). The disk is the journal, the registry and a map from places (target, stage, hold, backup)
to trees; a tree is a map from path to digest. `Manager` performs the code's durable actions one by one; a budget says how many still
succeed, and the next one raises, which stands for a crash or an I/O error at that point. The journal
and the registry are replaced atomically, trees are copied entry by entry, and a constant says whether
removing a tree is one action or many. The registry replacement is the commit point.

**Lamp experiments** (`LampLine.dfy`, then `BaseWorker.dfy`, `ShutdownWorker.dfy`, `DarkWorker.dfy`,
`CompactWorker.dfy`). `Line` is the session against an adversarial device: every operation may take any
time, a signal may arrive, and any reply, loss or contradiction is possible. Times are integer milliseconds.
The ghost trace records each frame handed to the transport, each complete reading, each queried barrier
and each attempt of clean-up to read; the properties are about that trace. Ghost fields also follow what the
lamp shows (`lamp`) and every fault of lamp or network so far (`troubles`: a loss, a contradiction, a competing
change, an exchange slower than `PROMPT`); a fault may leave the lamp anywhere. What must happen, and not only what
may, is stated with them: without a fault a run succeeds, and a signal alone never keeps the lamp from being
brought back. An honest lamp is dark after Shutdown.

**Client, coordinator, power memory** (`SerializedClient.dfy`, `ActionCoordinator.dfy`,
`ClientTransactions.dfy`, `PowerMemory.dfy`). The first two are step machines: each method is what happens
between two awaits, and a scheduler interleaves the steps of any number of callers, failures,
cancellations, expiry and closing. Their ghost logs carry the properties. The transactions are straight-line
bodies whose every step may fail, with the same ghost lamp; what a colour request asks for is in
`CompactWish.dfy`. The power memory keeps the history since the last load that found a fault.

**Decoders** (`StreamDecoders.dfy`), **audit** (`CaptureFilter.dfy`, `PacketAudit.dfy`, and
`CapturedPackets.dfy` for what packets carry), **catalog and archive** (`CatalogGraph.dfy`, `ArchivePaths.dfy`,
`MemberNames.dfy`, with one large example in `SpreadArchive.dfy`), **colour** (`Colour.dfy`). Loops are methods
proved against recursive definitions; the theorems are about those definitions.

Where a wished-for property is false of the code, the code is kept and the exact condition is proved:

- Recovery gets stuck on a staged archive with more than 2000 entries. `hash_tree` counts files and
  directories (manager/hahapent/storage.py:110-111) while the archive check counts members
  (manager/hahapent/downloads.py:280), so such an archive can be admitted (`AcceptedArchiveCanExceedTree`); the
  install then raises, its own recovery raises too, and the journal stays. With tree removal as one action this is
  the only way to get stuck, exactly when the stage has come to exceed the limit (`CrashThenRecover`,
  `ChangeDomain`, `WholeRemovalsRecover`).
- An admitted install can close a dependency cycle when a module moved to another domain between two
  catalogs (`MovedDomainMakesCycle`); `InstallKeepsAcyclicIff` is the exact condition.
- A save that should clear an Off origin but fails is forgotten by the next load (`StaleOriginSurvivesReload`).
  `ReloadKeepsAnswersIff` is exact in the error flag before the load; without it the history simply goes on
  (`Reload`), so `RestoreIff` holds across such loads.
- `async_prepare_off` would save an invalid record for a lamp that does not report six channels
  (`OffMemoryValidIff`); the coordinator's power gate is what rules this out.
- A change that raised may be committed (`RaisedYetCommitted`): exactly when it was interrupted behind the
  registry replacement (`RaisedYetCommittedIff`), and `recovery` then reports a finished transaction.
- A change that did not commit may leave its backup directory (`RefusedRemovalLeavesBackup`), which is never
  cleaned up: exactly when it began to make the copy (`OrphanRemainsIff`). The before disk is therefore stated
  up to that directory.

Assumptions: transaction identifiers are fresh or their paths are absent (the code checks stage, hold and
backup paths), digests are injective, nothing but the manager edits its directories while it runs, and the
clock is monotone. Branches that these assumptions and the journal rule out, such as a missing new tree
behind a committed registry, are proved unreachable in place instead of being modelled as errors.

## Model

| member | source | states |
|---|---|---|
| InstalledRegistry.UniqueProvider | manager/hahapent/engine.py:508-522 | when the rules hold, a dependency of a surviving entry has one provider after the install, found where it was |
| InstalledRegistry.ReplacedHasNoDependents | manager/hahapent/engine.py:523-533 | an entry that another installed module depends on by exact version cannot pass the checks for being replaced |
| InstalledRegistry.DependedOnIsPinned | manager/hahapent/engine.py:508-533 | as long as something depends on an entry, no admitted change alters or removes it |
| InstalledRegistry.InstallKeepsClosed | manager/hahapent/engine.py:508-533 | an admitted install, update or rollback keeps every installed module's exact-version dependencies installed |
| InstalledRegistry.RemovalKeepsClosed | manager/hahapent/engine.py:623-643 | an admitted removal keeps them installed too |
| InstalledRegistry.RollbackUndoesUpdate | manager/hahapent/engine.py:591-614 | rollback after an update restores the earlier module, source and files; a second rollback returns to the update |
| InstalledRegistry.RollbackUndoesRemoval | manager/hahapent/engine.py:591-614 | rollback after a removal reinstates that entry, changes no other and uses the removal record up |
| InstalledRegistry.AcyclicHasNoCycle | manager/hahapent/engine.py:508-533 | in a ranked dependency graph no walk along dependencies returns to its start |
| InstalledRegistry.InstallKeepsAcyclicIff | manager/hahapent/engine.py:508-533 | an admitted install keeps the installed dependency graph acyclic if and only if the new module has a support: what its dependencies reach never needs the identity being installed |
| InstalledRegistry.OneDomainKeepsAcyclic | manager/hahapent/engine.py:508-533 | while a (source, id) keeps one domain, every admitted install has such a support |
| InstalledRegistry.MovedDomainMakesCycle | manager/hahapent/catalog.py:180-192 | a concrete registry in which a module that moved to a second domain passes every check and closes a cycle; one domain per id is enforced only inside one catalog |
| InstalledRegistry.RemovalKeepsAcyclic | manager/hahapent/engine.py:623-643 | removing keeps the graph acyclic |
| InstalledRegistry.UpdateBlockedIff | manager/hahapent/engine.py:524-533 | with every module at its home an update or rollback is refused for a dependent if and only if another entry depends on the one it would replace |
| InstalledRegistry.RemovalBlockedIff | manager/hahapent/engine.py:628-635 | likewise a removal, for any entry that depends on the one to go |
| TransactionDisk.NothingLost | manager/hahapent/engine.py:768-829 | in every state an interruption can leave, even inside a tree removal: before the commit the complete old tree is at the target or on hold, after it the complete new tree is at the target, and recovery restores exactly that |
| TransactionDisk.WholeRemovalsRecover | manager/hahapent/engine.py:789-829 | if tree removal is one step, recovery can finish if and only if the staged tree is within the limit of `hash_tree` |
| TransactionDisk.OthersUntouched | manager/hahapent/engine.py:665-766 | a transaction changes nothing but its own target and its own backup |
| TransactionDisk.SameButConsistent | manager/hahapent/engine.py:665-766 | a disk left as before, but for an orphan backup directory, still satisfies every quiescent invariant |
| TransactionDisk.CommitKeepsRegistry | manager/hahapent/engine.py:665-766 | committing an admitted change keeps dependency closure and backup chains |
| TransactionDisk.AfterDiskMatching | manager/hahapent/engine.py:665-766 | after a commit every owned tree and every `previous` and `removed` backup still equals its recorded files |
| TransactionDisk.AfterDiskConsistent | manager/hahapent/engine.py:665-766 | committing an admitted change to a consistent disk gives a consistent disk |
| TransactionDisk.CommitMeaning | manager/hahapent/engine.py:712-745 | what a commit does to the documents, record by record: an install, update or rollback puts the entry in place, remembers what was there, uses up the removal record of that domain and no other; a removal takes it out and records it; every other entry, record and tree stays |
| LifecycleManager.UncommittedSettlesBefore | manager/hahapent/engine.py:789-829 | until the registry is replaced, an open transaction can only settle as the disk it started from |
| LifecycleManager.CommittedSettlesAfter | manager/hahapent/engine.py:772-787 | from the registry replacement on it can only settle as the after disk, and recovery can finish |
| LifecycleManager.Afterwards | manager/hahapent/engine.py:665-766 | however an admitted change ended, the disk is one that a run can reach, and the graph stays layered if modules keep their homes |
| LifecycleManager.RaisedYetCommittedIff | manager/hahapent/engine.py:745-766 | a change that raised is committed all the same if and only if it is feasible and its interruption fell behind the registry replacement, counted in durable actions; raised without an interruption it leaves the before disk |
| LifecycleManager.OrphanRemainsIff | manager/hahapent/engine.py:712-718 | a change with a new identifier leaves a backup directory that no record names if and only if it made the directory and did not commit |
| LifecycleManager.StillChanged | manager/hahapent/engine.py:756-766 | a recovery behind a raised change, completed or not, never alters how that change ends |
| LifecycleManager.UncommittedEnding | manager/hahapent/engine.py:789-829 | a pending transaction whose registry is unchanged ends as the before disk and keeps its backup directory exactly if it has one |
| LifecycleManager.Manager.RemoveOwned | manager/hahapent/storage.py:141-144 | a tree is deleted only after it matched its recorded files, even if the deletion stops half way |
| LifecycleManager.Manager.CopyOwned | manager/hahapent/storage.py:128-138 | a copy is made only from a tree that matches its record and never over an existing one |
| LifecycleManager.Manager.RemoveStage | manager/hahapent/engine.py:768-770 | only the transaction's own stage is deleted without a registry record, and not if it exceeds the limit |
| LifecycleManager.Manager.Finish | manager/hahapent/engine.py:772-787 | finishing a committed transaction removes hold, stage and journal if and only if nothing is in the way and the budget affords it, or leaves a state with the same outcome |
| LifecycleManager.Manager.Recover | manager/hahapent/engine.py:789-829 | a completed recovery leaves exactly the settled disk with journal, stage and hold gone and says whether it finished or rolled back; it completes if and only if the trees to delete match their records and the budget affords its actions; otherwise it keeps the outcome |
| LifecycleManager.Manager.Prepare | manager/hahapent/engine.py:665-730 | up to the second journal write only the stage and the new backup differ from the start; which of the two was begun, and whether it succeeds, is exact in the checks and the budget |
| LifecycleManager.Manager.Swap | manager/hahapent/engine.py:731-744 | the ownership recheck passes; every point of the two renames is a pending state that settles as before |
| LifecycleManager.Manager.Carry | manager/hahapent/engine.py:731-748 | from the planned journal on: the registry changes if and only if the budget reaches its replacement, and success needs the whole clean-up |
| LifecycleManager.Manager.Commit | manager/hahapent/engine.py:745-748 | the registry replacement is the commit point: it decides which disk is settled, exactly by the budget |
| LifecycleManager.Manager.ChangeDomain | manager/hahapent/engine.py:665-766 | for every interruption: it succeeds if and only if it is feasible and reaches its end; it ends as the after disk if and only if it reaches the commit point, otherwise as the before disk, with the new backup directory exactly if that was begun; `recovery` reports which; if removals are one action and its own recovery is not interrupted, the journal stays if and only if the staged archive has come to exceed the limit |
| LifecycleManager.Manager.Salvage | manager/hahapent/engine.py:756-766 | the exception handler reports the original error if its recovery completes and `recovery_required` otherwise, and changes no outcome |
| LifecycleManager.Manager.CrashThenRecover | manager/hahapent/engine.py:665-829 | crash the change after any durable step, crash any number of recoveries anywhere, then let one run: the after disk if the crash fell behind the commit point, otherwise the before disk; with removals as one action the last recovery completes if and only if the stage has not come to exceed the limit of `hash_tree` |
| LifecycleManager.Manager.CheckTarget | manager/hahapent/engine.py:544-558 | passes if and only if the component directory is absent and unowned, or owned by this source and unmodified |
| LifecycleManager.Manager.CheckDependencies | manager/hahapent/engine.py:508-533 | passes if and only if every dependency has exactly one provider, compatible and unmodified and not being replaced, and no dependent pins another version |
| LifecycleManager.Manager.AdmitInstall | manager/hahapent/engine.py:560-572 | the checks of install pass if and only if version, ownership, identity and dependencies do, and what they pass is admissible |
| LifecycleManager.Manager.AdmitRollback | manager/hahapent/engine.py:591-604 | the checks of rollback pass if and only if target, module, dependencies and backup do |
| LifecycleManager.Manager.Open | manager/hahapent/engine.py:560-563 | the recovery that opens a request completes if and only if it can and its budget suffices, and leaves exactly what the disk settles as |
| LifecycleManager.Manager.InstallModule | manager/hahapent/engine.py:560-589 | for every interruption of the opening recovery, the change and its salvage: success, commit and what remains are exact in the checks, the feasibility and the budgets; a commit changes the records and trees of this domain only; every disk stays reachable and acyclic at home |
| LifecycleManager.Manager.RollBackModule | manager/hahapent/engine.py:591-614 | likewise for rollback, which reinstates exactly the recorded entry and its verified files, remembers the one it replaced and keeps every other record |
| LifecycleManager.Manager.RemoveModule | manager/hahapent/engine.py:623-643 | likewise for removal, which needs confirmation, no native entries and no dependents and records exactly this removal; refused at the swap it ends as the before disk with its backup directory |
| LifecycleManager.Manager.Serve | manager/hahapent/engine.py:560-643 | over any run of requests, each interrupted anywhere and each opening with a recovery of its own that may be interrupted too: closure, chains, ownership and (at home) acyclicity hold in every reachable disk |
| ChangeExamples.RaisedYetCommitted | manager/hahapent/engine.py:745-766 | an installation interrupted in its clean-up raises, is finished by its own recovery and leaves the after disk |
| ChangeExamples.RefusedRemovalLeavesBackup | manager/hahapent/engine.py:732-736 | a removal refused at the swap leaves the registry as it was and a backup directory that no record names |
| LampLine.Line.SendAndDrain | tooling/aquarius_validation.py:229-270 | a frame is handed over at most once, only before its deadline |
| LampLine.Line.Read | tooling/aquarius_validation.py:435-444 | an accepted reading has the profile, a permitted mode and valid channels; a lamp without faults is read as it is, unless a signal stops the phase |
| LampLine.Line.FreshRecoveryRead | tooling/aquarius_validation.py:449-495 | only readings are retried, inside one deadline that leaves the reserve; a competing mode is never retried, a lost reading is given up only after three attempts, an attempt is made whenever time is left, and one in time and mode is returned |
| LampLine.Line.TryRead | tooling/aquarius_validation.py:463-490 | one attempt: only a plain transport fault may be retried |
| LampLine.Line.Confirm | tooling/aquarius_validation.py:515-543 | in clean-up a lost barrier is answered by fresh readings; a barrier that contradicts is never |
| LampLine.Line.Command | tooling/aquarius_validation.py:497-543 | each planned frame is sent at most once and in order, before the deadline; success is backed by a later reading of the commanded mode; a lamp without faults shows exactly what was sent, the whole command unless a signal intervened |
| LampLine.PhasesInTime | tooling/aquarius_validation.py:595-672 | the frames of both phases keep the deadlines of their phases |
| LampLine.FrameIsSent | tooling/aquarius_validation.py:497-543 | every event of a frame is one of the frames accounted for |
| BaseWorker.GuardCovers | tooling/aquarius_validation.py:545-593 | clean-up frames stand behind a reading this run can explain, made with the command reserve left |
| BaseWorker.LaterGuardCovers | tooling/aquarius_validation.py:545-593 | leaving Manual also stands behind a reading of the original channels |
| BaseWorker.ExcursionComposes | tooling/aquarius_validation.py:595-672 | experiment and clean-up compose to one bounded excursion |
| BaseWorker.ValidationWorker.Command | tooling/aquarius_validation.py:497-543 | a confirmed vector restoration leaves the mode reserve, so the second command's margin check cannot fail |
| BaseWorker.ValidationWorker.Restore | tooling/aquarius_validation.py:571-593 | from an explained reading exactly the frames still needed, at least the first of them, all of them on success |
| BaseWorker.ValidationWorker.Recover | tooling/aquarius_validation.py:545-593 | writes only from a fresh reading of the baseline or planned vector; that reading is attempted whenever time is left, and one that still needs a frame is followed by it at once; without a further fault the lamp is brought back; success re-observed the original mode and vector |
| BaseWorker.ValidationWorker.CleanUp | tooling/aquarius_validation.py:633-660 | clean-up always follows a started excursion: it is attempted, answers the reading it can explain, and fails only behind a further fault, or if the lamp shows what this run cannot explain or too little time is left |
| BaseWorker.ValidationWorker.Run | tooling/aquarius_validation.py:595-672 | for every device behaviour and clock: two equal readings first, fixed frame order, each frame at most once, deadlines kept, clean-up attempted and guarded, PASS re-observed the original within ten seconds; a lamp without faults is left as it was found whenever a signal stops the run, and without a signal the run passes |
| LampLine.NoVectorsIff | tooling/aquarius_task004_validation.py:218-257 | a trace writes no vector if and only if its frames are all mode frames |
| ShutdownWorker.AuthorityCovers | tooling/aquarius_task004_validation.py:259-317 | a vector behind the chain of observations is authorised |
| ShutdownWorker.PlansJoin | tooling/aquarius_task004_validation.py:319-400 | clean-up frames continue the experiment's plan only if Shutdown was sent |
| ShutdownWorker.ShutdownValidationWorker.SendMode | tooling/aquarius_task004_validation.py:218-257 | one mode frame with its barrier and reading; Shutdown marks its delivery as started |
| ShutdownWorker.ShutdownValidationWorker.Recover | tooling/aquarius_task004_validation.py:259-317 | restores only from an explained Shutdown reading; a vector needs full authority |
| ShutdownWorker.ShutdownValidationWorker.RestoreMode | tooling/aquarius_task004_validation.py:283-290 | the guard reserve always suffices to send the original mode |
| ShutdownWorker.ShutdownValidationWorker.CleanUp | tooling/aquarius_task004_validation.py:362-386 | clean-up is attempted, sends nothing but behind a first reading of an own Shutdown, sends the original mode at once behind it unless the experiment met a contradiction, and without a further fault brings the lamp back |
| ShutdownWorker.ShutdownValidationWorker.ReplayVector | tooling/aquarius_task004_validation.py:290-317 | the vector follows zero Shutdown, the confirmed Manual barrier and two later zero Manual readings |
| ShutdownWorker.ShutdownValidationWorker.Run | tooling/aquarius_task004_validation.py:319-400 | over all runs the frames are a prefix of Off, original mode, vector, Manual; every vector is authorised; clean-up is attempted and answers an own Shutdown; PASS re-observed the original; a lamp without faults is brought back whenever a signal stops the run, and without a signal the run passes |
| DarkWorker.VectorOwned | tooling/aquarius_dark_optical_validation.py:242-256 | a vector sent right behind an owning reading is owned |
| DarkWorker.ResumeOwned | tooling/aquarius_dark_optical_validation.py:227-234 | Shutdown is left only right behind its all-zero reading |
| DarkWorker.SampleFromZero | tooling/aquarius_dark_optical_validation.py:282-292 | the sample is written only right behind a Manual all-zero reading |
| DarkWorker.DarkOpticalWorker.Transmit | tooling/aquarius_dark_optical_validation.py:155-172 | a failed send or incomplete quarantine latches `unsafe`; success means every frame of the command was sent |
| DarkWorker.DarkOpticalWorker.Transaction | tooling/aquarius_dark_optical_validation.py:136-203 | one whole command or none, admitted only with the margin; unless latched, the new phase, its complete boundary and its target are recorded |
| DarkWorker.DarkOpticalWorker.Settle | tooling/aquarius_dark_optical_validation.py:173-203 | only a queried boundary, or in clean-up a reading of exactly the target, ends the pending state |
| DarkWorker.DarkOpticalWorker.Guard | tooling/aquarius_dark_optical_validation.py:205-223 | nothing passes once `unsafe` is latched, and a pending command only at its exact target |
| DarkWorker.DarkOpticalWorker.Recover | tooling/aquarius_dark_optical_validation.py:205-257 | the original vector is written only from a state that the interrupted phase owns; margins cannot run out; success sent the whole way back and read the original |
| DarkWorker.DarkOpticalWorker.RestoreFrom | tooling/aquarius_dark_optical_validation.py:224-257 | a reading that the phase owns is always followed by its way back, any other by nothing |
| DarkWorker.DarkOpticalWorker.CleanUp | tooling/aquarius_dark_optical_validation.py:316-336 | clean-up is attempted, answers a reading that the stopped phase owns by the first frame of its way back unless latched, and without a further fault brings the original vector back |
| DarkWorker.DarkOpticalWorker.TakeSample | tooling/aquarius_dark_optical_validation.py:282-311 | the sample is confirmed and held for its time inside the four-second phase; an unconfirmed one latches exactly when the lamp is not dark |
| DarkWorker.DarkOpticalWorker.Run | tooling/aquarius_dark_optical_validation.py:259-358 | over all runs: three equal readings first, whole commands out, owned commands back, nothing after the latch, deadlines kept, clean-up attempted and answered, PASS means both ways complete and the original read again; a lamp without faults is left as it was found whenever a signal stops the run, and without a signal the run passes |
| CompactWorker.StaysReadOnly | tooling/aquarius_compact_validation.py:283-311 | readings keep a latched trace free of frames and service calls |
| CompactWorker.CallAppended | tooling/aquarius_compact_validation.py:320-368 | service calls happen in plan order, each once |
| CompactWorker.RecoveryAdds | tooling/aquarius_compact_validation.py:384-405 | clean-up adds its own frames and no service call |
| CompactWorker.CallConfirmed | tooling/aquarius_compact_validation.py:320-368 | a reading of the planned vector behind the last call, with no call between and the native status agreeing behind it, confirms that call |
| CompactWorker.CompactWorker.Actuate | tooling/aquarius_compact_validation.py:320-368 | never after a latch and only from the exact owned state; success is an independent reading of the planned vector |
| CompactWorker.CompactWorker.CallService | tooling/aquarius_compact_validation.py:326-352 | only a call whose completion is unknown latches the run read-only |
| CompactWorker.CompactWorker.SettleUncertain | tooling/aquarius_ha_validation.py:297-306 | a wait until the uncertain call can no longer run, or to the deadline |
| CompactWorker.CompactWorker.RestoreAutomatic | tooling/aquarius_compact_validation.py:370-382 | with the guard reserve left, exactly one Automatic frame |
| CompactWorker.CompactWorker.Recover | tooling/aquarius_compact_validation.py:384-405 | after a latch it only reads, and not while the call may still run; otherwise a reading is attempted, exactly the owned output is answered by Automatic at once, and without a further fault the lamp is back under Automatic |
| CompactWorker.CompactWorker.Run | tooling/aquarius_compact_validation.py:407-475 | over all runs: three readings and agreeing native status first, nothing actuated after a latch, at most one frame and it is Automatic, calls are a prefix of the plan and each leaves the margin of its phase, clean-up attempted and answered, PASS confirmed every action by its own reading before the next call; with a lamp and service without faults Automatic is back whenever a signal stops the run, and without a signal the run passes |
| SerializedClient.NoStaleCommand | modules/aquarius_plant_led/custom_components/aquarius_plant_led/client.py:335-399 | over all interleavings: a write queued before anything became uncertain is never transmitted, and no write is transmitted without a confirmed state |
| SerializedClient.OneLiveTransaction | modules/aquarius_plant_led/custom_components/aquarius_plant_led/client.py:335-399 | every frame belongs to the one transaction holding the lock, and nothing was revoked between its start and the frame |
| SerializedClient.NothingAfterClose | modules/aquarius_plant_led/custom_components/aquarius_plant_led/client.py:322-333 | after `close` nothing is transmitted and no transaction starts |
| SerializedClient.NothingRevokedSinceSubmit | modules/aquarius_plant_led/custom_components/aquarius_plant_led/client.py:335-343 | a call whose epoch is current has seen no revocation since it was queued |
| SerializedClient.Client.Acquire | modules/aquarius_plant_led/custom_components/aquarius_plant_led/client.py:339-345 | a write is admitted if and only if the client is open, needs no refresh and the epoch is the one captured |
| SerializedClient.Client.Send | modules/aquarius_plant_led/custom_components/aquarius_plant_led/client.py:496-502 | a frame goes out if and only if the operation's epoch is current and the connection open |
| SerializedClient.Client.Resume | modules/aquarius_plant_led/custom_components/aquarius_plant_led/client.py:352-378 | a result keeps the epoch; an unusable input moves it but keeps the fresh reading; anything else revokes |
| SerializedClient.Client.Cancel | modules/aquarius_plant_led/custom_components/aquarius_plant_led/client.py:359-361 | a cancellation revokes, and the operation keeps the lock until it has really ended |
| SerializedClient.Client.Leave | modules/aquarius_plant_led/custom_components/aquarius_plant_led/client.py:379-399 | only an uncancelled success becomes the known state |
| SerializedClient.Client.Close | modules/aquarius_plant_led/custom_components/aquarius_plant_led/client.py:322-333 | closing revokes at any moment without a further frame |
| SerializedClient.Serve | modules/aquarius_plant_led/custom_components/aquarius_plant_led/client.py:335-412 | any schedule of any number of callers keeps the log safe |
| ClientTransactions.VectorScriptGuarded | modules/aquarius_plant_led/custom_components/aquarius_plant_led/client.py:122-146 | a vector command keeps every frame behind a reading of the verified profile in Manual or Automatic |
| ClientTransactions.ModeScriptGuarded | modules/aquarius_plant_led/custom_components/aquarius_plant_led/client.py:148-168 | a mode command keeps every frame behind a reading of the verified profile |
| ClientTransactions.WakeGuarded | modules/aquarius_plant_led/custom_components/aquarius_plant_led/client.py:224-247 | so does a wake from Shutdown with its second guard |
| ClientTransactions.Wire.PrepareWrite | modules/aquarius_plant_led/custom_components/aquarius_plant_led/client.py:445-465 | a fresh reading passes only as the expected system state, with the expected output unless a program runs, on the verified profile |
| ClientTransactions.Wire.Apply | modules/aquarius_plant_led/custom_components/aquarius_plant_led/client.py:427-443 | each frame is attempted once and in order; success means barrier and fresh reading followed; without a fault the lamp shows what was sent |
| ClientTransactions.Wire.SetChannel | modules/aquarius_plant_led/custom_components/aquarius_plant_led/client.py:122-146 | the other five channels come from the fresh reading; success read back exactly the new vector under Manual, and without a fault an acceptable lamp takes it |
| ClientTransactions.Wire.SetMode | modules/aquarius_plant_led/custom_components/aquarius_plant_led/client.py:148-168 | one mode frame from an accepted reading; selecting Manual must not have changed the channels; without a fault an acceptable lamp takes the mode |
| ClientTransactions.Wire.TurnOff | modules/aquarius_plant_led/custom_components/aquarius_plant_led/client.py:251-269 | nothing is sent to a lamp that is off; success is Shutdown with the old or zero output, and without a fault it succeeds |
| ClientTransactions.Wire.RestoreManual | modules/aquarius_plant_led/custom_components/aquarius_plant_led/client.py:294-318 | the remembered vector is written only from zero Off through zero Manual and a second guard |
| ClientTransactions.Wire.TurnOn | modules/aquarius_plant_led/custom_components/aquarius_plant_led/client.py:271-320 | success is the running lamp as read, Automatic, or exactly the remembered vector under Manual; without a fault it succeeds if and only if the lamp runs, resumes the program, or was off with the remembered or no output |
| ClientTransactions.Wire.SetCompact | modules/aquarius_plant_led/custom_components/aquarius_plant_led/client.py:170-249 | at most one vector is sent, and it is the one that serves the request on top of the fresh output or the trusted basis: the explicit level, or the basis peak, or 5, and every channel its rounded share; without colour and basis nothing is sent; without a fault the lamp shows it |
| CompactWish.DesiredServes | modules/aquarius_plant_led/custom_components/aquarius_plant_led/client.py:197-222 | the computed vector, and no other, serves the request, which is said by shares: white is what the primaries have in common, each primary channel the rest, every channel nearest to its share of the level, the largest shares lit at one if all are below one half; without a colour every channel of the basis in proportion |
| CompactWish.DesiredIsWanted | modules/aquarius_plant_led/custom_components/aquarius_plant_led/client.py:205-222 | there is no such vector exactly without a colour and without a lit basis |
| CompactWish.LevelServed | modules/aquarius_plant_led/custom_components/aquarius_plant_led/compact.py:116-131 | a level without a colour is the exact peak and keeps the order of the basis |
| CompactWish.ColourServed | modules/aquarius_plant_led/custom_components/aquarius_plant_led/compact.py:89-113 | a colour never exceeds its level, lights something, leaves unused channels dark and gives a larger share no less |
| CompactWish.RecipeIsShares | modules/aquarius_plant_led/custom_components/aquarius_plant_led/compact.py:104-107 | the recipe is what the shares say, and nothing else is |
| ClientTransactions.Wire.Serve | modules/aquarius_plant_led/custom_components/aquarius_plant_led/client.py:122-320 | over any run of requests no vector is written while the last reading was Shutdown |
| ActionCoordinator.OnlyCurrentRequests | modules/aquarius_plant_led/custom_components/aquarius_plant_led/coordinator.py:280-312 | a request reached the client only with an unchanged command epoch, as the latest for its channel (or colour), settled and before its deadline |
| ActionCoordinator.OnlySupportedRequests | modules/aquarius_plant_led/custom_components/aquarius_plant_led/coordinator.py:115-163 | over every run: a slider or mode request was accepted, and reached the client, only on a last observation of Automatic or Manual on a profile validated for writes; Off and On only on one of a profile validated for power in a known mode; a colour by the gate of its observed mode; no update had failed since, and nothing was stopped or unloading |
| ActionCoordinator.KnownMeaning | modules/aquarius_plant_led/custom_components/aquarius_plant_led/coordinator.py:65-118 | what the coordinator relies on is its last observation, trusted unless an update failed since, and kept unless an unload began since |
| ActionCoordinator.OneCallAtATime | modules/aquarius_plant_led/custom_components/aquarius_plant_led/coordinator.py:95-112 | two client calls never overlap, be they actions, polls or the refresh in front of Off: the first returned to its caller before the second began |
| ActionCoordinator.CallOrReturn | modules/aquarius_plant_led/custom_components/aquarius_plant_led/coordinator.py:95-112 | a client call is in flight until it returned to its caller |
| ActionCoordinator.NotOvertaken | modules/aquarius_plant_led/custom_components/aquarius_plant_led/coordinator.py:132-138 | nothing that makes a request obsolete lies between it and now while it is current |
| ActionCoordinator.Coordinator.Ask | modules/aquarius_plant_led/custom_components/aquarius_plant_led/coordinator.py:280-291 | an action is accepted if and only if the last trusted observation permits it; a refused one leaves no trace; an accepted one starts current |
| ActionCoordinator.Coordinator.Supersede | modules/aquarius_plant_led/custom_components/aquarius_plant_led/coordinator.py:313-323 | asking makes exactly the overtaken requests stale |
| ActionCoordinator.Coordinator.TakeLock | modules/aquarius_plant_led/custom_components/aquarius_plant_led/coordinator.py:295-301 | the lock is used if and only if the request is in time, permitted by the last trusted observation and not overtaken |
| ActionCoordinator.Coordinator.OffRefreshed | modules/aquarius_plant_led/custom_components/aquarius_plant_led/coordinator.py:357-367 | Off continues if and only if its refresh agrees, shows a running lamp on a profile validated for power, and its epoch is unchanged |
| ActionCoordinator.Coordinator.OffPrepared | modules/aquarius_plant_led/custom_components/aquarius_plant_led/coordinator.py:368-375 | the client is called if and only if the origin was saved, in time, and power is still permitted in the same epoch |
| ActionCoordinator.Coordinator.ClientReturned | modules/aquarius_plant_led/custom_components/aquarius_plant_led/coordinator.py:302-312 | any failure moves the command epoch; a result is published only behind the saving of the memory |
| ActionCoordinator.Coordinator.Published | modules/aquarius_plant_led/custom_components/aquarius_plant_led/coordinator.py:73-80 | the observation becomes the data whether or not the memory could be saved |
| ActionCoordinator.Coordinator.Abort | modules/aquarius_plant_led/custom_components/aquarius_plant_led/coordinator.py:246-271 | expiry or cancellation of a window moves the command epoch, marks the data as failed and frees the lock; an observation about to be published still is |
| ActionCoordinator.Serve | modules/aquarius_plant_led/custom_components/aquarius_plant_led/coordinator.py:82-459 | any schedule of requests, polls, faults, expiry and unloading keeps the log safe |
| PowerMemory.OffMemoryValidIff | modules/aquarius_plant_led/custom_components/aquarius_plant_led/state_store.py:211-227 | the record that Off saves passes validation if and only if the lamp reports six channels |
| PowerMemory.RestoreIff | modules/aquarius_plant_led/custom_components/aquarius_plant_led/state_store.py:242-256 | exactly these histories since the load restore `c`: a whole saved Manual Off chain with the same profile and output and nothing running since, where `c` was the last saved nonzero Manual observation; or a loaded record and only readings of the dark lamp |
| PowerMemory.RestoreHasChain | modules/aquarius_plant_led/custom_components/aquarius_plant_led/state_store.py:242-256 | a restorable vector has such a history |
| PowerMemory.ChainRestores | modules/aquarius_plant_led/custom_components/aquarius_plant_led/state_store.py:242-256 | such a history restores its vector |
| PowerMemory.OffThenOnRestores | modules/aquarius_plant_led/custom_components/aquarius_plant_led/state_store.py:211-256 | a nonzero Manual output that was switched off and confirmed comes back |
| PowerMemory.ReplayLastManual | modules/aquarius_plant_led/custom_components/aquarius_plant_led/state_store.py:193-204 | the remembered Manual vector is the last one that was really saved |
| PowerMemory.LastManualMeaning | modules/aquarius_plant_led/custom_components/aquarius_plant_led/state_store.py:193-204 | that is the last nonzero Manual observation of the verified profile whose save did not fail, or without one the loaded one |
| PowerMemory.ValidRestores | modules/aquarius_plant_led/custom_components/aquarius_plant_led/state_store.py:41-97 | whatever valid record was loaded, only a nonzero vector for a six-channel lamp comes back |
| PowerMemory.LoadsIff | modules/aquarius_plant_led/custom_components/aquarius_plant_led/state_store.py:41-116 | a file is taken over if and only if it is absent or readable with six-channel profiles in bytes, nonzero vectors of percentages, an origin that ran, and an Off output exactly for a confirmed origin |
| PowerMemory.ReloadKeepsAnswersIff | modules/aquarius_plant_led/custom_components/aquarius_plant_led/state_store.py:138-156 | a reload of an accepted file changes no answer if and only if no save had failed or the file holds no vector; of a file that is not accepted, if and only if there was no answer to lose |
| PowerMemory.HoldsVectorIff | modules/aquarius_plant_led/custom_components/aquarius_plant_led/state_store.py:242-256 | a record restores something for some lamp if and only if it holds a confirmed Off from Manual with a vector |
| PowerMemory.Reload | modules/aquarius_plant_led/custom_components/aquarius_plant_led/state_store.py:138-156 | set up again without a failed save, the memory is the same and its history goes on; otherwise it answers exactly as the file does |
| PowerMemory.StaleOriginSurvivesReload | modules/aquarius_plant_led/custom_components/aquarius_plant_led/state_store.py:138-209 | driven through saves, a failed clearing save and a load: the next memory trusts a stale origin |
| PowerMemory.AquariusPowerMemory.Load | modules/aquarius_plant_led/custom_components/aquarius_plant_led/state_store.py:138-156 | a readable valid record is taken over; any other file is kept and blocks every later save |
| PowerMemory.AquariusPowerMemory.Save | modules/aquarius_plant_led/custom_components/aquarius_plant_led/state_store.py:158-191 | a save is believed if and only if it landed, was neither refused nor cancelled and a fresh load returns this revision; a failed one leaves the memory and raises the error flag |
| PowerMemory.AquariusPowerMemory.Observe | modules/aquarius_plant_led/custom_components/aquarius_plant_led/state_store.py:206-209 | an observation that changes nothing is kept, any other saved or failed, with memory, file and flag exact in what became of the save |
| PowerMemory.AquariusPowerMemory.PrepareOff | modules/aquarius_plant_led/custom_components/aquarius_plant_led/state_store.py:211-227 | refused outside Manual and Automatic; what it saves is valid exactly for six channels |
| PowerMemory.AquariusPowerMemory.ConfirmOff | modules/aquarius_plant_led/custom_components/aquarius_plant_led/state_store.py:229-240 | refused unless it matches the saved intent |
| PowerMemory.AquariusPowerMemory.ManualRestore | modules/aquarius_plant_led/custom_components/aquarius_plant_led/state_store.py:242-256 | in the coordinator's order it answers a vector if and only if the history earned it |
| PowerMemory.Serve | modules/aquarius_plant_led/custom_components/aquarius_plant_led/state_store.py:138-256 | any run in the coordinator's order, with reloads anywhere, keeps saved records valid, and its answer is earned by the history since the last reload that found a failed save or a file it could not accept |
| StreamDecoders.FrontIsStable | modules/aquarius_plant_led/custom_components/aquarius_plant_led/protocol.py:176-205 | a decision about the front of the buffer never changes when more bytes arrive |
| StreamDecoders.DrainSplits | modules/aquarius_plant_led/custom_components/aquarius_plant_led/protocol.py:168-206 | consuming part of a stream first changes nothing |
| StreamDecoders.ChunkingIsInvisible | modules/aquarius_plant_led/custom_components/aquarius_plant_led/protocol.py:168-206 | any split of a byte string that can be fed gives the same messages, leftover and discard count |
| StreamDecoders.StreamedIsWhole | modules/aquarius_plant_led/custom_components/aquarius_plant_led/protocol.py:168-206 | the same for streams of any length in chunks that leave room for the longest leftover |
| StreamDecoders.LeftoverBound | modules/aquarius_plant_led/custom_components/aquarius_plant_led/protocol.py:168-206 | after any successful feed at most 261 bytes wait, so 1024-byte reads never hit the limit |
| StreamDecoders.LeftoverBoundIsTight | modules/aquarius_plant_led/custom_components/aquarius_plant_led/protocol.py:185-193 | 261 bytes can wait |
| StreamDecoders.EncodedDecodes | modules/aquarius_plant_led/custom_components/aquarius_plant_led/protocol.py:149-155 | any encoded sequence of core, extended and acknowledgement messages decodes back to itself |
| StreamDecoders.ChunkedEncodedDecodes | modules/aquarius_plant_led/custom_components/aquarius_plant_led/protocol.py:149-206 | and so it does in any chunks a 1024-byte read delivers |
| StreamDecoders.NoiseIsSkipped | modules/aquarius_plant_led/custom_components/aquarius_plant_led/protocol.py:203-205 | noise costs exactly its own bytes; what follows decodes as if it stood alone |
| StreamDecoders.DamagedFrameIsSkipped | modules/aquarius_plant_led/custom_components/aquarius_plant_led/protocol.py:178-184 | a core frame that lost its end is dropped byte by byte and the decoder is back in step behind it |
| StreamDecoders.FalseHeaderIsSkipped | modules/aquarius_plant_led/custom_components/aquarius_plant_led/protocol.py:185-188 | a byte that only looks like an extended frame is dropped alone |
| StreamDecoders.DamagedTrailerRaises | modules/aquarius_plant_led/custom_components/aquarius_plant_led/protocol.py:194-196 | an extended frame without its trailer empties the buffer and raises |
| StreamDecoders.FrontsAgree | tooling/aquarius_validation.py:177-202 | the strict decoder refuses exactly what the other drops or rejects |
| StreamDecoders.StrictRefines | tooling/aquarius_validation.py:172-203 | strict decoding succeeds if and only if the other decoder succeeds and discards nothing, with the same primaries and leftover |
| StreamDecoders.StrictRefinesChunks | tooling/aquarius_validation.py:172-203 | on any chunk sequence where the strict decoder never raises the other one yields the same primaries, leftover and no discards |
| StreamDecoders.ChannelFrameRoundTrip | modules/aquarius_plant_led/custom_components/aquarius_plant_led/protocol.py:66-68 | a written channel frame parses back to its values, under the C/D swap too, and passes both decoders as one frame |
| StreamDecoders.PermuteTwice | modules/aquarius_plant_led/custom_components/aquarius_plant_led/protocol.py:55-63 | the C/D permutation undoes itself |
| StreamDecoders.StreamDecoder.Feed | modules/aquarius_plant_led/custom_components/aquarius_plant_led/protocol.py:168-206 | the loop computes exactly the recursive decoding, buffer, discard count and error included |
| StreamDecoders.StrictDecoder.Feed | tooling/aquarius_validation.py:172-203 | the strict loop computes exactly its recursive decoding, and leaves the buffer where it raised |
| CaptureFilter.ResolvesForward | tooling/aquarius_passive_audit.py:101-110 | the labels resolve to forward jumps of at most 255 that stay inside the program |
| CaptureFilter.AcceptsExactly | tooling/aquarius_passive_audit.py:73-110 | on any packet of any length, target and port the resolved program accepts exactly IPv4 TCP with fragment offset zero to the target and its port, or (not to the target) from it and its port, for every header length; out-of-range loads reject |
| CaptureFilter.LowMask | tooling/aquarius_passive_audit.py:87-92 | masking the low bits is a remainder, for every width |
| CaptureFilter.PortRows | tooling/aquarius_passive_audit.py:92-97 | the port is found behind the variable header length |
| CaptureFilter.AddressRows | tooling/aquarius_passive_audit.py:88-91 | the destination decides before the source |
| PacketAudit.OrderIsInvisible | tooling/aquarius_passive_audit.py:242-251 | without conflicts any reordering or exact retransmission gives the same byte map |
| PacketAudit.ConflictPair | tooling/aquarius_passive_audit.py:249-250 | a reported conflict is two captured pieces that disagree about a byte |
| PacketAudit.RecoversPrefix | tooling/aquarius_passive_audit.py:241-272 | whatever a flow says: if its pieces are slices of a true stream, across sequence wrap too, all bytes recovered from the start are its prefix |
| PacketAudit.SlicesAgree | tooling/aquarius_passive_audit.py:249-250 | pieces that are slices of one true stream never conflict |
| PacketAudit.CommandsAreTrue | tooling/aquarius_passive_audit.py:274-285 | every command scanned from such a flow, a write above all, stands at the same place in the true stream |
| PacketAudit.GatheredSlices | tooling/aquarius_passive_audit.py:200-216 | however the segments of a connection are reordered, repeated or mixed with answers, if they carry slices of the true stream so do the pieces of their flow, SYN and its payload counted as the protocol does |
| PacketAudit.FlowIsSound | tooling/aquarius_passive_audit.py:200-285 | for the segments filed in a flow: slices of a true stream give no conflict, a prefix of it and only commands of it |
| PacketAudit.SynOpensStream | tooling/aquarius_passive_audit.py:204-210 | the opening SYN fixes where the stream starts |
| PacketAudit.ExplainedLayout | tooling/aquarius_passive_audit.py:242-272 | an explained flow is laid out as exactly its stream |
| PacketAudit.PayloadInsideQueries | tooling/aquarius_passive_audit.py:204-210 | the payload of a filed packet is a part of its flow's queries |
| PacketAudit.LayPiece | tooling/aquarius_passive_audit.py:248-251 | the byte loop lays a piece without overwriting and flags exactly the disagreements |
| PacketAudit.Assemble | tooling/aquarius_passive_audit.py:242-251 | the layout, the range check and the conflict flag of all pieces |
| PacketAudit.ScanCommands | tooling/aquarius_passive_audit.py:274-285 | the scan counts exactly the commands that the stream starts with and stops at the first block that is none |
| PacketAudit.QueriesAreCommands | tooling/aquarius_passive_audit.py:274-285 | a stream is a concatenation of queries if and only if its commands are these queries and reach its end |
| PacketAudit.ExplainedCommands | tooling/aquarius_passive_audit.py:274-285 | an explained flow gave exactly its queries |
| PacketAudit.TotalsMeaning | tooling/aquarius_passive_audit.py:286-291 | a reported count is positive if and only if some flow gave such a command |
| PacketAudit.CheckEnd | tooling/aquarius_passive_audit.py:252-266 | the end of a flow is unproblematic if and only if it was closed at its last byte and its acknowledgements fit |
| PacketAudit.Judge | tooling/aquarius_passive_audit.py:235-286 | the counts of a flow are those of its longest gap-free stream, and it is clean if and only if a concatenation of queries explains it |
| PacketAudit.UpdatedKeeps | tooling/aquarius_passive_audit.py:204-220 | a segment adds its piece or acknowledgement to its flow and loses nothing |
| PacketAudit.Audit.Feed | tooling/aquarius_passive_audit.py:153-221 | an accepted packet is filed once, a rejected one not at all, with exactly the problems it has; every flow holds exactly the segments filed in it, of one peer and one opening number, all parsed from fed packets; as long as nothing is a problem, every fed packet was whole, parsed and filed |
| PacketAudit.Audit.File | tooling/aquarius_passive_audit.py:186-221 | a segment updates exactly the flow of its tuple, a new one if the tuple is unknown or reopened, and no other flow changes |
| PacketAudit.RefiledConnected | tooling/aquarius_passive_audit.py:189-199 | a peer's next flow begins exactly where it asks for a connection with another number, and one that was still open says so |
| CapturedPackets.BuiltIsAccepted | tooling/aquarius_passive_audit.py:161-187 | whatever the options on both headers and the padding behind the packet: the audit sees the direction, peer, numbers, flags and payload of the segment that the packet was built from |
| CapturedPackets.AcceptedIsBuilt | tooling/aquarius_passive_audit.py:161-187 | every accepted packet was built from its segment |
| CapturedPackets.AcceptsExactly | tooling/aquarius_passive_audit.py:161-187 | so the parser accepts exactly the packets that the headers' formats allow, each as its own segment |
| CapturedPackets.ControlBits | tooling/aquarius_passive_audit.py:187-189 | the flags are the control bits of the protocol |
| CapturedPackets.GatheredEnds | tooling/aquarius_passive_audit.py:204-215 | a flow starts with the number of the client's last SYN and ends behind its last FIN |
| CapturedPackets.PiecesMeaning | tooling/aquarius_passive_audit.py:208-210 | the pieces of a flow are the client's payloads at their numbers |
| CapturedPackets.SignalsMeaning | tooling/aquarius_passive_audit.py:216-220 | acknowledgements are those of the lamp, and a flow is reset exactly when either side reset it |
| CapturedPackets.ResponsesCounted | tooling/aquarius_passive_audit.py:219-219 | the response bytes are what the lamp sent |
| CapturedPackets.AcceptMark | tooling/aquarius_passive_audit.py:205-207 | a flow is marked exactly when the client itself accepted a connection |
| CapturedPackets.EndMark | tooling/aquarius_passive_audit.py:211-215 | a flow is marked exactly when its client closed it at two different ends |
| CapturedPackets.PacketsToCommands | tooling/aquarius_passive_audit.py:153-285 | from packets to verdict: if the packets filed in a flow were built from slices of one client's stream, in any order and with any headers, every command reported is a command of that stream |
| PacketAudit.Audit.Finish | tooling/aquarius_passive_audit.py:223-308 | the report counts what the clients said. Write: if and only if some flow gave one; other command: if and only if some flow gave one and none a write; QUERY_ONLY_OBSERVED: if and only if no problem was recorded, the statistics agree, every flow is gap-free, conflict-free and exactly queries from its start, some flow gave a system query, some a channel query, and a response byte was captured |
| CatalogGraph.Build | manager/hahapent/catalog.py:210-230 | the graph has exactly the listed module versions and their local dependencies on listed versions |
| CatalogGraph.FindCycle | manager/hahapent/catalog.py:231-245 | whatever order `ready` is popped in: a cycle is reported if and only if there is one, and otherwise the visit order is topological |
| CatalogGraph.ReportsCycle | manager/hahapent/catalog.py:210-245 | from the module list: reported if and only if a listed version depends on itself through listed local dependencies |
| CatalogGraph.StuckHasCycle | manager/hahapent/catalog.py:236-245 | modules that are never ready contain a cycle |
| CatalogGraph.OrderedHasNoCycle | manager/hahapent/catalog.py:236-245 | a complete topological order leaves no cycle |
| CatalogGraph.CountIncoming | manager/hahapent/catalog.py:231-234 | the counters start as the number of dependents |
| CatalogGraph.VisitKeepsProgress | manager/hahapent/catalog.py:238-243 | one visit keeps counters, readiness and order |
| ArchivePaths.CheckArchive | manager/hahapent/downloads.py:279-331 | the check accepts exactly the archives that are acceptable, pair by pair, and collects exactly what is to be written |
| ArchivePaths.FoldingIsInjective | manager/hahapent/downloads.py:304-312 | in an accepted archive case folding is injective over files, directories and implied parents |
| ArchivePaths.NoFileAbove | manager/hahapent/downloads.py:317-324 | no file is an ancestor of another accepted entry |
| ArchivePaths.CompatibleIff | manager/hahapent/downloads.py:304-324 | what the loop's sets let through is exactly what fits every earlier member |
| ArchivePaths.NoteAliases | manager/hahapent/downloads.py:304-308 | the spelling check of one member and the spellings it adds |
| ArchivePaths.WriteMember | manager/hahapent/downloads.py:353-362 | writing fails only where a file stands in the way or a path already exists |
| ArchivePaths.WriteAll | manager/hahapent/downloads.py:353-362 | for an accepted archive the write phase never fails, on file systems that tell folded names apart or not, and leaves exactly the accepted members and their parents |
| MemberNames.SafeNameIff | manager/hahapent/downloads.py:288-297 | the demands on a member's parts are those on its name: at most 500 permitted characters, no compiled file, no empty, dot or cache part |
| MemberNames.AdmittedStaysInside | manager/hahapent/downloads.py:316-324 | with `.` and `..` resolved, what is unpacked lies under the directory of its integration |
| SpreadArchive.AcceptedArchiveCanExceedTree | manager/hahapent/storage.py:106-112 | an archive of 1002 members is accepted although its tree has 2002 files and directories, more than `hash_tree` allows |
| SpreadArchive.SpreadEntries | manager/hahapent/downloads.py:310-329 | every file in a directory of its own adds one file and one directory to the tree |
| Colour.HalfUp | modules/aquarius_plant_led/custom_components/aquarius_plant_led/compact.py:84-86 | the nearest integer to a ratio, ties upward |
| Colour.ScaleHitsPeak | modules/aquarius_plant_led/custom_components/aquarius_plant_led/compact.py:116-131 | scaling hits the requested peak exactly, keeps the order of channels and errs by at most one half |
| Colour.RescalingDrift | modules/aquarius_plant_led/custom_components/aquarius_plant_led/compact.py:116-131 | rescaling through L and then to M drifts at most M/(2L) + 1/2 |
| Colour.MixMeaning | modules/aquarius_plant_led/custom_components/aquarius_plant_led/compact.py:89-113 | a mix never exceeds the level, is nonzero exactly for nonzero intent, keeps unused channels dark and the order of shares |
| Colour.MixIsNearest | modules/aquarius_plant_led/custom_components/aquarius_plant_led/compact.py:104-112 | every channel is its exact share to the nearest level, unless all shares are below one half and the tied peak channels are lit instead |
| Colour.RecipeBounds | modules/aquarius_plant_led/custom_components/aquarius_plant_led/compact.py:104-108 | the recipe peak is positive for every nonzero colour because every primary is mapped |
| Colour.ShowRgb | modules/aquarius_plant_led/custom_components/aquarius_plant_led/compact.py:134-150 | the loop computes the maximum of every role and the normalised display |
| Colour.ShownMeaning | modules/aquarius_plant_led/custom_components/aquarius_plant_led/compact.py:134-150 | something is shown exactly when a coloured or white channel is lit, with peak 255 |
| Colour.ShownExactly | modules/aquarius_plant_led/custom_components/aquarius_plant_led/compact.py:134-150 | each component shows the largest level of its own primary together with the largest white, brought to 255 in the brightest and rounded to nearest |
| Colour.MixShownBack | modules/aquarius_plant_led/custom_components/aquarius_plant_led/compact.py:89-150 | without white and at RGB peak 255 the display of a mix gives each component back up to 255/(2L) + 1/2 |

## Left out

- Symbolic links, file modes, `__pycache__` filtering, byte-size limits of trees, fsync ordering below atomic replacement, and disk edits by others.
- Registry and catalog documents are typed values: JSON Schema validation, timestamps, `restart_pending`, `extensions`, native manifest parsing and URL comparison by case are not part of this model; `_check_compatibility` is a set of accepted modules.
- Catalog refreshes, sources, bundled catalogs and test mode of the manager; a refresh only changes which module an install is asked for.
- Downloading, redirects, DNS and the archive's own format: an archive is a list of members, a member name its parts and trailing slashes. The manifest's content checks behind the member loop (manager/hahapent/downloads.py:332-352) and which error code is raised are left out.
- Report contents, evidence files and failure reasons of the workers, except that failing to persist evidence before the excursion stops it and prevents a PASS.
- The C/D swap of one controller is undone before frames are compared in the worker and client modules; its encoding is covered by `ChannelFrameRoundTrip`.
- `OpticalValidationWorker`, the Home Assistant validation workers and the automatic composite repeat the worker pattern with other routes.
- asyncio itself: steps between awaits are atomic, and a delivered cancellation is a step. That `wait_for` may swallow a cancellation is covered, because delivery is never forced.
- Merging of pending colour gestures, the debounce sleep as a timer, update intervals and entity notifications of the coordinator.
- What Home Assistant's `Store` does inside one save is any combination of landing, raising, cancellation and a failed reread, given as a parameter.
- ActionCoordinator.Coordinator.Call: its margins are the checks of the callers, so it is a step of theirs and has no row.
- LampLine.Line.Quarantine: which stray bytes are tolerated is left to the decoders; here a quarantine passes, raises or times out.
- `first_seen` and `last_seen` of audit flows, the socket loop and the kernel's own loader; unknown instruction codes reject.
- RGB option parsing and display labels; the light, number, select and sensor entities.
