# Verified model of the session-binding, crash-parking, tasks.md and transcript code

This project models the parts of the server and of its tasks.md runtime whose guarantees span many calls, and proves
those guarantees over every input, run or interleaving. `dafny verify dfyconfig.toml` checks all of it.

## What is modelled

**The binding registry** (`TargetKey`, `BindingStore`, `AttemptJournal`, `RegistryState`, `StoreFile`, `Hydrate`,
`Registry`, `RegistryReopen`, `RegistrySteps`, `RegistryReleases`, `RegistryRuns`, `RegistryTheorems`,
`RegistryReplay`). A durable lease service: one chat may drive one native thread at a time. `RegistryState` says what each
mutation commits, as a plan: refuse, answer without writing, or write one next state. `Registry` is the class that does
it, over a store file that `StoreFile` and `Hydrate` read back from arbitrary content. `RegistryRuns` interleaves
all mutations with failed writes, crashes and reopenings and keeps one invariant; `RegistryTheorems` and `RegistryReplay`
draw the guarantees from it.

**Crash-loop parking** (`BootLedger`, `BootResume`, `BootRuns`, `BootLoops`). The ledger that stops work which keeps
killing the server, as a class over a file that outlives each process, and its runs over any number of boots.

**The tasks.md writer** (`Text`, `Numbers`, `TaskCheckout`, `TaskLock`, `Base64Url`, `WorkMetadata`, `TaskMarkers`,
`TaskLine`, `TaskRows`, `TaskFile`, `TaskSections`). The lock store and the lock protocol between processes; the
printer and parser of one line; the metadata link inside it; the rows of a file; the setters; sections, capture and move.

**Fast readers and two algorithms** (`ArchiveSearch`, `SessionTurns`, `SessionWindows`, `Archive`, `WordAlign`).

## Assumptions

- The clock never goes back, across restarts and across the processes that share a lock store. One instant stands for a call.
- One server process writes the binding store.
- A lease is renewed only while unexpired. Renewal itself does not check, and the exact consequence is proved.
- The job id of a new pin is not one of those found pinned at open.
- A durable write either replaces the whole file or leaves the old one; a failed one leaves the old one. Boot ids have 1 to 128 characters.
- A checked tasks.md write finishes within the five-second budget or not at all; identities of lock sessions are fresh; nobody force-releases.
- JSON text is an abstract codec that returns what it was given; hashes, word normalisation, the reading of a transcript record and the
  test whether an owner is the operator are parameters.

## Where the code and its own account differ

- `renew` can give a target two writers; `RegistryTheorems.RenewKeepsOneWriterExactly` says exactly when.
- Reopening does not give identical records after a pinned binding was force-detached; `RegistryReopen.RecordsSurviveExactly` says exactly when it does.
- Pinning a job that is already pinned does not record the attempt it carries; `RegistryTheorems.PinRecordsItsAttemptUnlessHeld` says exactly when the journal answers for it, `RegistryTheorems.HeldPinLosesItsAttempt` is a case.
- A release of dead-boot pins writes the journal without bounding it, so a write can leave attempts older than the retention; `RegistryTheorems.JournalWritesDropTheAged`, and `RegistryTheorems.ReleaseCanWriteTheAged`.
- Releasing dead-boot pins can push a turn's own earlier row off a full ledger; `RegistryTheorems.ReleaseLeavesARecordExactly`, and `RegistryTheorems.ReleaseCanForgetATurn`.
- A clean exit, retry or forget whose write fails leaves the file's counts standing, so only durable ones reset a crash loop; `BootRuns.ParkedOnlyByACrashLoop`, and `BootRuns.ParkedAcrossACleanExit`.
- With more than 500 parked items a parked entry can be pruned; `BootLedger.PruneKeepsParkedExactly`, and `BootLedger.PruneCanDropAParked`.
- Checking an archived row does nothing, and a bare `done` agent marker cannot be said; `TaskFile.CheckFrame`, `TaskLine.StateSurvivesExactly`.
- Head and tail windows can yield one record twice when the head is as large as the ceiling; `SessionWindows.ReadTwiceExactly`, and `SessionWindows.CanBeReadTwice`.
- `more` can be true when no earlier message exists; `SessionTurns.ReadRecentSessionTurns` says exactly when it is true, `SessionTurns.MoreOfNothing` is a case.
- A chunked search counts more than the whole text holds for exactly the needles that can overlap themselves; `ArchiveSearch.CountsAgreeExactly`.

## Model

| member | source | states |
|---|---|---|
| RegistryTheorems.OneWriterPerTarget | server/lib/agent-session-binding-registry.ts:1010-1103 | In every state of every run of mutations, failed writes, crashes and reopenings, no two live bindings share a target, each live binding is the one `targets` names, and the store file, opened at any later time, is never degraded (so never `duplicate_target`), drops nothing and gives the same state back |
| RegistryTheorems.RenewKeepsOneWriterExactly | server/lib/agent-session-binding-registry.ts:1147-1153 | A renewal that writes keeps one writer per target if and only if it does not revive a lapsed lease whose target another binding holds: renewing looks at no expiry |
| RegistryTheorems.RenewCanStealATarget | server/lib/agent-session-binding-registry.ts:1750-1752 | A concrete state in which renewing a lapsed lease gives a thread two writers |
| RegistryTheorems.FloorsNeverFall | server/lib/agent-session-binding-registry.ts:1784-1799 | Along a run the epoch floor of every target never falls and what was issued and begun only grows, across reaps, evictions, crashes and reopenings |
| RegistryTheorems.EpochsStrictlyIncrease | server/lib/agent-session-binding-registry.ts:1042-1098 | Of two leases ever issued for one target the later has the greater epoch |
| RegistryTheorems.ClaimsMatchOnlyTheirOwnLease | server/lib/agent-session-binding-store.ts:290-309 | A claim taken from an issued lease, or a marker made from it, is accepted in that state or any later one only against that same issuance, even after its binding id was evicted and reused |
| RegistryTheorems.NeverAttemptedIsSound | server/lib/agent-session-binding-registry.ts:1231-1261 | For every attempt durably begun, in every later state either an attempt at least as young is on file under its key or `evictedThrough` has reached its instant; and the journal is within its size bounds |
| RegistryTheorems.JournalWritesDropTheAged | server/lib/agent-session-binding-registry.ts:544-570 | Every mutation that begins or settles an attempt, or changes the journal in any way, leaves it within its size bounds and without an attempt older than the retention, except a release of dead-boot pins, which bounds nothing: what it writes is free of aged attempts if and only if what it found was |
| RegistryTheorems.ReleaseCanWriteTheAged | server/lib/agent-session-binding-registry.ts:1419-1446 | A state, and a release 49 hours and 31 minutes after its attempt, in which the journal is rewritten with an attempt older than 48 hours |
| RegistryTheorems.PinRecordsItsAttemptUnlessHeld | server/lib/agent-session-binding-registry.ts:1162-1197 | After a granted pin the journal answers for the attempt it carried if and only if the job was not already pinned or the journal answered before; pinning a held job answers without a write |
| RegistryTheorems.HeldPinLosesItsAttempt | server/lib/agent-session-binding-registry.ts:1162-1197 | A state in which pinning a held job is granted and the journal knows nothing of the attempt |
| RegistryTheorems.ReleaseDropsExactlyTheDue | server/lib/agent-session-binding-registry.ts:1348-1363 | A release drops a pin if and only if it was on disk at open, 31 minutes have passed since both the pin and the open, its recorded child is gone, and its target is the one asked about |
| RegistryTheorems.OwnPinsAreNeverReleased | server/lib/agent-session-binding-registry.ts:1391-1451 | Over a run no release touches a pin of the boot that is running |
| RegistryTheorems.ReleaseSettlesPending | server/lib/agent-session-binding-registry.ts:1391-1451 | A released pin that names a turn turns that turn's pending attempt to unknown, and no other attempt moves |
| RegistryTheorems.ReleaseLeavesARecordExactly | server/lib/agent-session-binding-registry.ts:1391-1451 | For a released pin that names a turn, however many pins go at once: a row is appended if and only if no ledger of the target knew the turn, and the target knows the turn afterwards if and only if another of its bindings held it or fewer than 64 rows follow its newest row on this one; with at most 64 pins released no unknown turn is left without its row |
| RegistryTheorems.ReleaseCanForgetATurn | server/lib/agent-session-binding-registry.ts:1391-1451 | A full ledger and two released pins after which the target no longer knows a turn it had a row for |
| RegistryReplay.LedgerIsALog | server/lib/agent-session-binding-registry.ts:1572-1593 | While a binding is retained, across every operation, crash and reopening its turn ledger is the newest 64 of what it held followed by what has landed since |
| RegistryReplay.TurnsReplay | server/lib/agent-session-binding-registry.ts:1524-1545 | A recorded answer is what `findTurn` returns on that binding, unchanged, until 64 later turns have landed on it, and any other binding on the same target then sees the turn as known |
| RegistryReleases.ReleaseLedger | server/lib/agent-session-binding-registry.ts:1391-1451 | What a release of dead-boot pins does to one ledger: the newest 64 of the old rows and the rows appended |
| RegistryReopen.ReopenUndoesPersist | server/lib/agent-session-binding-registry.ts:785-916 | The file written for a well-formed state opens as `loaded`, with nothing dropped, the same floors, turns and attempts, and `targets` cut down to the blocking records |
| RegistryReopen.RecordsSurviveExactly | server/lib/agent-session-binding-registry.ts:463-506 | The records come back identical if and only if no record keeps the age of a pin it no longer holds |
| RegistryReopen.ForceDetachLeavesAges | server/lib/agent-session-binding-store.ts:254-258 | Force-detaching a pinned binding leaves such ages, so its record does not come back identical |
| RegistryReopen.OpenFailsClosed | server/lib/agent-session-binding-registry.ts:711-783 | Only an absent file starts fresh; each reason for a degraded registry is given exactly for its own kind of file: unreadable, unparseable or without records, another version, no valid epoch ledger, two live bindings on a target; and a loaded store never lowers a floor it was given |
| RegistryRuns.CallsAreSteps | server/lib/agent-session-binding-registry.ts:1856-1865 | Carrying out a plan, refused, idempotent, failed or committed, is one step of a run |
| RegistryRuns.BeginIsAStep | server/lib/agent-session-binding-registry.ts:1231-1240 | So is beginning an attempt, recorded or not |
| RegistryRuns.SettleIsAStep | server/lib/agent-session-binding-registry.ts:1242-1253 | So is settling one, written or not |
| RegistryRuns.ReleaseIsAStep | server/lib/agent-session-binding-registry.ts:1391-1451 | So is a release of dead-boot pins, alone or before an occupancy answer |
| RegistryRuns.ReapIsAStep | server/lib/agent-session-binding-registry.ts:1595-1668 | So is a reap |
| RegistryRuns.CreateIsTwoSteps | server/lib/agent-session-binding-registry.ts:1010-1103 | A create is two steps: the release of the target's dead-boot pins, then the attach |
| RegistryRuns.StepInv | server/lib/agent-session-binding-registry.ts:1769-1847 | Each step keeps the invariant: well-formed memory, one holder per target, issued leases, answered attempts, and a file that says what memory says |
| RegistryRuns.RunInv | server/lib/agent-session-binding-registry.ts:695-917 | The invariant holds in every state of every run |
| RegistryRuns.OpenRestores | server/lib/agent-session-binding-registry.ts:785-916 | Opening a store a run wrote is `fresh` exactly when nothing was written, never degraded, and otherwise restores the state with nothing dropped |
| RegistryRuns.PersistedIs | server/lib/agent-session-binding-registry.ts:1784-1799 | With one writer, merging the floors on disk changes nothing: what is committed is what was proposed |
| RegistrySteps.RenewEvolves | server/lib/agent-session-binding-registry.ts:1147-1153 | A renewal of an unexpired lease keeps every lease's identity, the floors, the journal and one holder per target |
| RegistrySteps.ActivateEvolves | server/lib/agent-session-binding-registry.ts:1105-1119 | Activation keeps every lease's identity, the floors, the journal and one holder per target |
| RegistrySteps.DetachesEvolve | server/lib/agent-session-binding-registry.ts:1121-1145 | So do the three ways of detaching |
| RegistrySteps.PinEvolves | server/lib/agent-session-binding-registry.ts:1162-1197 | So does a pin, and the attempt it opens is on file afterwards |
| RegistrySteps.UnpinEvolves | server/lib/agent-session-binding-registry.ts:1199-1229 | So does an unpin and the settlement it carries |
| RegistrySteps.NoteChildEvolves | server/lib/agent-session-binding-registry.ts:1372-1389 | So does noting a pin's child |
| RegistrySteps.RecordTurnEvolves | server/lib/agent-session-binding-registry.ts:1572-1593 | So does recording a turn |
| RegistrySteps.BeginEvolves | server/lib/agent-session-binding-registry.ts:1231-1240 | So does beginning an attempt, which is on file afterwards |
| RegistrySteps.SettleEvolves | server/lib/agent-session-binding-registry.ts:1242-1253 | So does settling one |
| RegistryReleases.ReleaseEvolves | server/lib/agent-session-binding-registry.ts:1391-1451 | So does releasing dead-boot pins |
| RegistryReleases.ReapEvolves | server/lib/agent-session-binding-registry.ts:1595-1668 | So does a reap |
| RegistryReleases.AttachEvolves | server/lib/agent-session-binding-registry.ts:1010-1103 | An attach, evicting or not, adds one fresh lease one epoch above its target's floor, supersedes or frees only dead or idle ones, and keeps everything else |
| Registry.AgentSessionBindingRegistry.Open | server/lib/agent-session-binding-registry.ts:695-917 | The registry opened over a file holds what the file hydrates to, or nothing and a reason; the pins it found are the inherited ones |
| Registry.AgentSessionBindingRegistry.Persist | server/lib/agent-session-binding-registry.ts:1769-1847 | A durable write commits the proposed state with the file's floors merged in, or changes neither memory nor file |
| Registry.AgentSessionBindingRegistry.GetByTarget | server/lib/agent-session-binding-registry.ts:950-958 | The live binding that holds a target, and only a live one |
| Registry.AgentSessionBindingRegistry.FindTurn | server/lib/agent-session-binding-registry.ts:1524-1545 | A row is found exactly when the binding or any binding that shares its target holds the turn, and a binding's own first row wins |
| Registry.AgentSessionBindingRegistry.AttemptFor | server/lib/agent-session-binding-registry.ts:1255-1261 | What the journal knows of a key; an unusable store is never `no attempt` |
| Registry.AgentSessionBindingRegistry.CommitBinding | server/lib/agent-session-binding-registry.ts:1700-1767 | The shared tail of every transition: writes nothing when nothing changed, otherwise the record, the holder map and the journal in one commit |
| Registry.AgentSessionBindingRegistry.Activate | server/lib/agent-session-binding-registry.ts:1105-1119 | Activation is refused for unknown, expired and non-staging bindings and otherwise committed |
| Registry.AgentSessionBindingRegistry.BeginDetach | server/lib/agent-session-binding-registry.ts:1121-1127 | Beginning to detach is committed through the same tail |
| Registry.AgentSessionBindingRegistry.Detach | server/lib/agent-session-binding-registry.ts:1129-1137 | Detaching is refused while a job is pinned |
| Registry.AgentSessionBindingRegistry.ForceDetach | server/lib/agent-session-binding-registry.ts:1139-1145 | Force-detaching drops the pins |
| Registry.AgentSessionBindingRegistry.Renew | server/lib/agent-session-binding-registry.ts:1147-1153 | Renewal moves the expiry without looking at it |
| Registry.AgentSessionBindingRegistry.Pin | server/lib/agent-session-binding-registry.ts:1162-1197 | The refusals of a pin in order, then the pin, its age, its turn and its attempt in one commit |
| Registry.AgentSessionBindingRegistry.Unpin | server/lib/agent-session-binding-registry.ts:1199-1229 | An unpin drops the job and its age and settles the attempt it names |
| Registry.AgentSessionBindingRegistry.BeginAttempt | server/lib/agent-session-binding-registry.ts:1231-1240 | True exactly when the attempt was durably begun; false changes nothing |
| Registry.AgentSessionBindingRegistry.SettleAttempt | server/lib/agent-session-binding-registry.ts:1242-1253 | True exactly when the settlement is durable or there was nothing to settle |
| Registry.AgentSessionBindingRegistry.NotePinChild | server/lib/agent-session-binding-registry.ts:1372-1389 | Of the pins this boot took, one that carries a turn gets the child noted; any other is left as it is |
| Registry.AgentSessionBindingRegistry.RecordTurn | server/lib/agent-session-binding-registry.ts:1572-1593 | The first result of a turn wins; a repeat writes nothing |
| Registry.AgentSessionBindingRegistry.ReleaseOrphans | server/lib/agent-session-binding-registry.ts:1391-1451 | Releasing the due pins is carried out, or nothing was due and nothing changed |
| Registry.AgentSessionBindingRegistry.ReapOrphanedPins | server/lib/agent-session-binding-registry.ts:1328-1345 | The explicit reap of dead-boot pins |
| Registry.AgentSessionBindingRegistry.AttachBlocked | server/lib/agent-session-binding-registry.ts:1555-1563 | Whether a new attach would be refused, after the dead-boot pins of that target were looked at |
| Registry.AgentSessionBindingRegistry.Create | server/lib/agent-session-binding-registry.ts:1010-1103 | Every refusal of an attach in order, then the release of dead-boot pins, the yield of an idle holder, the eviction at the cap and the new lease in one commit |
| Registry.AgentSessionBindingRegistry.Reap | server/lib/agent-session-binding-registry.ts:1595-1668 | Leaked pins are dropped, records inert past their retention removed with their turns, holders rebuilt; floors stay |
| Registry.RebuildTargets | server/lib/agent-session-binding-registry.ts:1441-1446 | The holder map rebuilt from records holds exactly the blocked targets |
| Registry.FindTurnIn | server/lib/agent-session-binding-registry.ts:1524-1545 | The lookup of a turn over every binding of the target, as a loop |
| Registry.Release | server/lib/agent-session-binding-registry.ts:1391-1451 | The release over all records, as loops: which pins, which rows, which attempts |
| Registry.EvictOldestDisposable | server/lib/agent-session-binding-registry.ts:1893-1913 | Eviction frees the oldest dead records, as many as wanted or as there are, and the holder entries that named them |
| Registry.ReapRecords | server/lib/agent-session-binding-registry.ts:1595-1668 | The reap over all records, as a loop |
| AttemptJournal.BoundAttempts | server/lib/agent-session-binding-registry.ts:544-570 | Bounding a journal leaves it within all three bounds, alters nothing, sheds only the aged, the oldest surplus of a target or the stalest surplus targets, and raises the high-water mark to exactly the youngest it shed |
| AttemptJournal.TrimRows | server/lib/agent-session-binding-registry.ts:550-559 | One target: exactly the aged go, then the oldest until 256 remain |
| AttemptJournal.DropStaleTargets | server/lib/agent-session-binding-registry.ts:560-568 | Then whole targets go, least fresh first, until the cap |
| Hydrate.HydrateFile | server/lib/agent-session-binding-registry.ts:711-916 | Opening an arbitrary store file, branch by branch |
| Hydrate.LedgerIsValid | server/lib/agent-session-binding-registry.ts:768-783 | The epoch ledger is all or nothing |
| Hydrate.LoadRecords | server/lib/agent-session-binding-registry.ts:810-861 | Valid, first-seen records are kept, the others counted as dropped, and the floors folded up |
| Hydrate.LoadTargets | server/lib/agent-session-binding-registry.ts:862-870 | A holder map exists if and only if no target has two live bindings |
| Hydrate.LoadTurns | server/lib/agent-session-binding-registry.ts:787-807 | Well-formed rows are kept, the newest 64 of each |
| Hydrate.LoadAttempts | server/lib/agent-session-binding-registry.ts:876-894 | Well-formed attempts are kept, and damage is reported exactly when something was not |
| Hydrate.MergeLedger | server/lib/agent-session-binding-registry.ts:1784-1799 | The floors are merged upward with those on disk |
| TargetKey.ParseExact | server/lib/agent-session-binding-registry.ts:421-450 | A key parses to a pair exactly when the pair is legal and the key is the one made from it |
| TargetKey.MakeInjective | server/lib/agent-session-binding-store.ts:122-124 | Two pairs have one key only if they are the same pair |
| BindingStore.MarkerInjective | server/lib/agent-session-binding-store.ts:321-328 | Two leases have one marker exactly when they make the same claim |
| BindingStore.GatesAgree | server/lib/agent-session-binding-store.ts:331-337 | The marker gate accepts exactly what the claim gate accepts |
| BootRuns.ParkedOnlyByACrashLoop | server/lib/boot-resume.ts:336-398 | No false park: in every state of every run, behind each parked entry stand at least limit + 1 durable counts on distinct crashed boots, each under 30 minutes after the one before, at one phase, with no durable retry, forget or clean exit of an admitting boot in between or since |
| BootRuns.ParkedAcrossACleanExit | server/lib/boot-resume.ts:407-424 | A run with a limit of one in which the boot between the two counts exits cleanly, the write of that exit fails, and the next boot parks the item |
| BootRuns.StepEntry | server/lib/boot-resume.ts:301-481 | What one call may do to one entry: keep it, start it over, or count it durably on a crashed boot that had not counted it |
| BootLoops.CrashedBootsFollowACrash | server/lib/boot-resume.ts:314-334 | A boot counts as crashed only if an earlier process that had opened its boot left the marker unclean on file and no clean exit reached the file before |
| BootLoops.RefusalsAreBacked | server/lib/boot-resume.ts:379-397 | An item is refused only if its park was on record already or this very call wrote it, so a failed write never parks; with fewer than 500 items parked, what is refused is parked on file |
| BootLoops.CrashLoopsEnd | server/lib/boot-resume.ts:336-405 | In a crash loop, whatever count an item not yet parked came with, it is resumed on the first boots its limit leaves it (all `limit` of them when it is new to the ledger) and refused on every later one, except that a meeting finalization that has not had its second chance is resumed on exactly `limit` more from the first boot 30 minutes after its park; a query job never is |
| BootLoops.ResumesInBudget | server/lib/boot-resume.ts:336-398 | The boots of a loop that resume the item, in closed form, for every entry the loop may start from and every sequence of instants |
| BootLedger.PruneKeepsParkedExactly | server/lib/boot-resume.ts:212-226 | No parked entry is pruned if and only if at most 500 are parked |
| BootLedger.PruneCanDropAParked | server/lib/boot-resume.ts:212-226 | 501 parked items and a prune that drops one of them |
| BootResume.Prune | server/lib/boot-resume.ts:212-226 | Stale unparked entries go, then the lowest ranked until 500 remain |
| BootResume.Weigh | server/lib/boot-resume.ts:342-378 | Whether an item may be resumed and what its entry becomes: second chance, new phase, consecutive count, limit |
| BootResume.LedgerGate.ReadLedger | server/lib/boot-resume.ts:268-298 | The ledger is loaded once; what does not read back intact is read as empty |
| BootResume.LedgerGate.Save | server/lib/boot-resume.ts:301-312 | A durable write prunes first and is all or nothing |
| BootResume.LedgerGate.OpenBoot | server/lib/boot-resume.ts:314-334 | The boot is a crashed one exactly when the ledger read back intact without a clean exit on record |
| BootResume.LedgerGate.Admit | server/lib/boot-resume.ts:336-398 | Admission writes the count before the item runs; an unwritten count is undone and admits |
| BootResume.LedgerGate.MarkCleanShutdown | server/lib/boot-resume.ts:407-424 | A clean exit starts over every unparked item this boot saw |
| BootResume.LedgerGate.Retry | server/lib/boot-resume.ts:463-481 | The person's retry unparks in memory even when the write fails |
| BootResume.LedgerGate.Forget | server/lib/boot-resume.ts:450-461 | Forgetting removes the entry |
| BootResume.LedgerGate.IsParked | server/lib/boot-resume.ts:483-490 | Whether the ledger in memory parks an item |
| TaskLock.NoLostUpdates | work-task-runtime/task_write.py:94-126 | In every run of processes that lock, read, stall, expire, crash, check and write, each committed content was computed only from reads of exactly the content it replaced, and the file is the last one committed |
| TaskLock.OnlyTheHolderReleases | work-task-runtime/task_checkout.py:252-275 | An unexpired lock stays with its holder through every step but that holder's own release |
| TaskLock.StepInv | work-task-runtime/task_write.py:118-126 | Each event keeps it that a session the store still names has read only current content, and that a checked session holds the lock for its write budget |
| TaskCheckout.ExclusiveCheckout | work-task-runtime/task_checkout.py:204-250 | An exclusive checkout succeeds exactly when nobody holds the lock, holds for the whole TTL, and leaves every other lock as it was |
| TaskCheckout.ReleaseIsOwn | work-task-runtime/task_checkout.py:252-275 | A release gives back the caller's own lock and no other |
| TaskCheckout.CorruptStoreFailsClosed | work-task-runtime/task_checkout.py:169-179 | A store that does not read back grants nothing and is never cleared |
| TaskCheckout.WrittenReadsBack | work-task-runtime/task_checkout.py:129-136 | What the manager writes reads back as written, less what has expired since |
| TaskCheckout.EntriesFromPayload | work-task-runtime/task_checkout.py:71-81 | One invalid entry refuses the whole store; otherwise the unexpired locks |
| TaskCheckout.PurgeExpired | work-task-runtime/task_checkout.py:195-199 | Exactly the expired locks go |
| TaskCheckout.TaskCheckoutManager.CheckOut | work-task-runtime/task_checkout.py:204-250 | Checkout, exclusive or extending, rewrites the store as specified |
| TaskCheckout.TaskCheckoutManager.GiveBack | work-task-runtime/task_checkout.py:252-275 | Release rewrites the store as specified |
| TaskCheckout.TaskCheckoutManager.IsLocked | work-task-runtime/task_checkout.py:301-306 | The unexpired lock, if any, without writing |
| Base64Url.DecodeUndoesEncode | work-task-runtime/task_work_metadata.py:78-98 | Every byte string survives base64url without padding (section 5 of RFC 4648) |
| Base64Url.CanonicalExactly | work-task-runtime/task_work_metadata.py:79-80 | A token that decodes is the encoding of its bytes exactly when its left-over bits are zero |
| Base64Url.AcceptedExactly | work-task-runtime/task_work_metadata.py:79-80 | A token is accepted exactly when some byte string encodes to it, and then only that one does |
| WorkMetadata.TokenDataExactly | work-task-runtime/task_work_metadata.py:76-80 | A token yields data exactly when it is the canonical encoding of it, within 16,384 bytes |
| WorkMetadata.WrittenHasOneLink | work-task-runtime/task_work_metadata.py:73-75 | A written source holds one link and mentions the protocol once |
| WorkMetadata.DecodeUndoesWrite | work-task-runtime/task_work_metadata.py:67-99 | For valid metadata and a source without the protocol, decoding what was written gives the source trimmed, the metadata and no error |
| WorkMetadata.SecondWriteReplaces | work-task-runtime/task_work_metadata.py:88-99 | A second write replaces the first |
| WorkMetadata.RewrittenReadsBackExactly | work-task-runtime/task_work_metadata.py:88-99 | Writing over any metadata that reads back keeps the words and reads back as the new metadata if and only if the words left without the link do not mention the protocol |
| WorkMetadata.InvalidIsPreserved | work-task-runtime/task_work_metadata.py:67-85 | Metadata that does not read back is left in place, contributes nothing and refuses writes; metadata that is read comes from a canonical token in a link |
| WorkMetadata.PhaseAgreesWithStage | work-task-runtime/task_work_metadata.py:102-107 | The phase shown always agrees with the stage marker; stored metadata only refines it |
| TaskMarkers.MarkersReadBack | work-task-runtime/task_rows.py:153-176 | Markers read back as they were printed, in their normal form, and the text before them is untouched |
| TaskMarkers.NoBlobAcross | work-task-runtime/task_rows.py:61-66 | Text that ends in no marker is never part of the marker blob that follows it |
| TaskMarkers.AgentSurvivesExactly | work-task-runtime/task_write.py:261-272 | An agent's state survives printing exactly when it is one the markers can say |
| TaskMarkers.PartsAreBodies | work-task-runtime/task_write.py:259-272 | Each printed marker is a marker of the reader's grammar, of the same value |
| TaskLine.SegmentReadsBack | work-task-runtime/task_rows.py:131-150 | A value set off by a dash and a label is taken off as it was put on |
| TaskLine.ReadUndoesRebuild | work-task-runtime/task_write.py:250-273 | Parsing a rebuilt line gives back every field of a well-formed state |
| TaskLine.StateSurvivesExactly | work-task-runtime/task_write.py:250-273 | It gives the state back unchanged if and only if the agent's state is sayable and the row is not both checked and archived |
| TaskRows.ParsePath | work-task-runtime/task_rows.py:246-346 | Rows, sections, comments and delegated zones, line by line |
| TaskRows.AssignIds | work-task-runtime/task_rows.py:366-376 | Ids from the words and their ordinal |
| TaskRows.SameWordsSameIds | work-task-runtime/task_rows.py:366-376 | Rows that say the same words in the same order have the same ids |
| TaskFile.RewriteStateIsRead | work-task-runtime/task_write.py:284-316 | A rewrite starts from the state the row was read with, unless two stage markers clash |
| TaskFile.RewriteKeepsOthers | work-task-runtime/task_write.py:317-320 | Rewriting a row with a well-formed state that keeps its words changes that row only, and no id |
| TaskFile.SetRunAtFrame | work-task-runtime/task_write.py:385-400 | Setting the run time is refused exactly when the row's agent is running, and otherwise changes only the run time |
| TaskFile.SetMarkerFrame | work-task-runtime/task_write.py:443-469 | Setting the agent marker changes only the agent's state, to what the marker can say |
| TaskFile.SetDoneWhenFrame | work-task-runtime/task_write.py:502-521 | Setting or clearing the finish line changes only the finish line |
| TaskFile.CheckFrame | work-task-runtime/task_write.py:543-573 | Checking changes only the mark, and does nothing to an archived row |
| TaskFile.SetStageFrame | work-task-runtime/task_write.py:472-499 | Setting the stage changes only the stage marker and the phase stored in the metadata, and keeps every id; it is refused exactly for an unknown stage, for metadata that does not read back and for metadata that would grow too large; the metadata reads back as written if and only if the words left without the link do not spell the protocol |
| TaskFile.RestagedKeepsWords | work-task-runtime/task_write.py:482-489 | What a stage does to any source: refused, left alone without metadata, or rewritten with the stage's phase and nothing else changed |
| TaskFile.MarkerInWordsIsTaken | work-task-runtime/task_write.py:356-382 | Why markers are refused in words: they print as the row's own and move it to another state |
| TaskSections.Capture | work-task-runtime/task_write.py:334-344 | A captured line joins the tasks and displaces none, whatever is purged; it lands at the top of the section asked for, in the inbox exactly when an urgent, week or backlog section has no heading in the file, and without comment markup it reads as a row of where it landed |
| TaskSections.Move | work-task-runtime/task_write.py:524-540 | A moved task leaves its place and lands as a captured one does, in the inbox under exactly the same condition; every other task stays, in order |
| TaskSections.EnsureSection | work-task-runtime/task_write.py:182-219 | Which heading to insert under: the first of the section, else a new day section behind the inbox, else the inbox; it falls there exactly when an urgent, week or backlog section has no heading, purging or not; no task is lost |
| TaskSections.TargetsAreTokens | work-task-runtime/task_write.py:136-142 | The sections that can be asked for are exactly those a section token parses to |
| TaskSections.PurgeEmptyToday | work-task-runtime/task_write.py:222-237 | Exactly the lines of the past day sections that hold no task and no further heading go; every task and every heading of another section is kept |
| TaskSections.TopInsert | work-task-runtime/task_write.py:240-247 | Insertion is right after the heading and all the blanks that follow it |
| TaskSections.SectionEnd | work-task-runtime/task_write.py:152-162 | The end of a section is its first rule or heading as shallow |
| TaskSections.FindHeading | work-task-runtime/task_write.py:165-173 | The first heading of a section and day, and none exactly when the file has none |
| TaskSections.InsertHeading | work-task-runtime/task_write.py:176-179 | A heading is inserted between blanks |
| TaskSections.EnsureInbox | work-task-runtime/task_write.py:191-199 | The first inbox heading, or a new one before the first second-level heading when there is none |
| TaskSections.InsertedLands | work-task-runtime/task_rows.py:246-346 | A check-box line after a heading and blanks, in a file without comments, is a row of that section |
| WordAlign.Align | canaries/stt-672/explore_resolver.py:14-31 | The walk back has exactly the cost in the table's corner, takes both word lists in order, and no alignment costs less |
| WordAlign.FillTable | canaries/stt-672/explore_resolver.py:15-22 | The table holds the recurrence everywhere |
| WordAlign.NoCheaper | canaries/stt-672/explore_resolver.py:20-22 | No alignment of what is left costs less than the table says |
| WordAlign.Runs | canaries/stt-672/explore_resolver.py:33-47 | Agreed words stand alone and disputes are as long as they can be; together they are the alignment |
| WordAlign.Resolve | canaries/stt-672/explore_resolver.py:49-57 | The transcript is that of a best alignment: agreed words stand and each longest dispute is what the rule makes of its words; so keeping the first side gives it back, keeping the second gives that, and no rule changes what nobody disputes |
| ArchiveSearch.SearchArchiveFile | server/lib/archive-search.ts:116-140 | However the text is cut, something is found exactly when the needle is in the whole text, the count lies between disjoint and all matches, and is the whole text's own when the needle cannot overlap itself |
| ArchiveSearch.CountsAgreeExactly | server/lib/archive-search.ts:116-140 | The count is the whole text's own for every text and every cut if and only if the needle cannot overlap itself |
| ArchiveSearch.CollectMatches | server/lib/archive-search.ts:82-103 | The count of one haystack, resuming past each needle |
| ArchiveSearch.CountIsMostDisjoint | server/lib/archive-search.ts:82-103 | That count is the greatest number of matches that do not overlap |
| ArchiveSearch.ChunkAdds | server/lib/archive-search.ts:127-135 | A chunk behind its carry adds exactly its own matches to all matches and loses no disjoint one |
| ArchiveSearch.DisjointIsSome | server/lib/archive-search.ts:82-103 | Disjoint matches are at most all matches, and all of them for a needle that cannot overlap itself |
| SessionTurns.ReadRecentSessionTurns | server/lib/agent-session-turns.ts:153-188 | The windowed read returns the end of the whole file's messages, exactly the newest wanted when that many are found, and all of them when there are said to be no more; more is promised exactly when there are more or no window covers the file |
| SessionTurns.MoreOfNothing | server/lib/agent-session-turns.ts:141-147 | A file without a message for which more is promised |
| SessionTurns.RecentSessionTurns | server/lib/agent-session-turns.ts:130-139 | The newest messages among some lines |
| SessionTurns.LinesJoin | server/lib/agent-session-turns.ts:166-178 | Cutting a file anywhere touches only the line it cuts |
| SessionTurns.WindowIsSuffix | server/lib/agent-session-turns.ts:166-181 | The messages of a window's whole lines are the last messages of the file |
| SessionWindows.LastRecordStart | server/lib/agent-session-store.ts:1560-1580 | The chunked walk back gives the whole file's answer exactly when that lies within its limit, and otherwise gives up |
| SessionWindows.TailWindowStart | server/lib/agent-session-store.ts:1589-1611 | Where the tail window opens |
| SessionWindows.ReadTwiceExactly | server/lib/agent-session-store.ts:1598-1610 | Head and tail both yield a complete record if and only if the tail reached back, the record is the last one and it ends within the head, whatever the sizes of file and windows |
| SessionWindows.NeverTwiceBelowTheCeiling | server/lib/agent-session-store.ts:1640-1672 | With the head below the ceiling no record is ever read twice |
| SessionWindows.CanBeReadTwice | server/lib/agent-session-store.ts:1598-1610 | A file and windows with which one is, when it is not |
| SessionWindows.LastRecordIsRead | server/lib/agent-session-store.ts:1589-1611 | The last record is in the tail exactly when it starts within reach or in the ordinary window |
| SessionWindows.LastRecordIs | server/lib/agent-session-store.ts:1560-1580 | What the whole-file answer means: it is where the last record begins |
| Archive.SplitSessionIntoChats | server/lib/archive.ts:132-170 | Chats are non-empty, together are the session, start exactly at the boundaries, and have strictly increasing start times even when the timestamps are not sorted |
| Archive.Boundaries | server/lib/archive.ts:140-150 | A chat starts at the front and at the first exchange after each break that has one before it |
| Archive.AppendToArchive | server/lib/archive.ts:337-411 | Appending writes exactly when something is new, more complete or duplicated, and then leaves one chat per session and start, the most complete, numbered from zero in start order |
| Archive.MergeKeys | server/lib/archive.ts:371-392 | The upsert by key, and whether it changed anything |
| Archive.AppendTwice | server/lib/archive.ts:394-397 | Re-appending a session is a no-op, whether the day existed or not, whatever the first append did and whatever summaries come back the second time |
| Archive.AppendSession | server/lib/archive.ts:335-412 | Appending a session: split, then merged into the day if there is one, else the day itself |
| Archive.SplitAgain | server/lib/archive.ts:132-170 | Splitting a session twice gives the same keys and sizes |
| Archive.MergedIsMostComplete | server/lib/archive.ts:371-392 | Each held chat is the largest offered under its key |
| Archive.FreshDayIsMerged | server/lib/archive.ts:403-411 | A first append already leaves a merged day |

## Left out

- Binding registry: `findTurnForTarget`, `orphanPinHold`, the read-only views, the counters of reports, warnings and the re-entrancy latch around them; non-finite numbers and values of the wrong JavaScript type beyond what the store reader rejects; the order in which a JavaScript map lists ties.
- Store and ledger files: JSON text, sha256, file modes, symbolic links and fsync.
- Boot ledger: the per-field checks that drop a malformed entry of a foreign ledger file, `status`, and log lines.
- Turn answers: the bodies replayed to clients are opaque; the `deferred` shapes built around them are not modelled.
- Lock protocol: `locked_replace`, whose text is computed before the lock is taken, and the row a check is aimed at, chosen before it; `force_release` and the repair command; a torn write of the lock store.
- tasks.md rows: lookup of a row by id, reference or alias (the setters are stated for the row itself); `set_text`, `edit_work_task`, `capture_work_item` and the other Work edits; the revision hash and duplicate Work identities; captured text with line breaks.
- tasks.md text: digits are the ASCII digits, upper-casing and the case-insensitive headings are those of ASCII letters, and `\b` after `Delegated` is between ASCII word characters.
- WorkMetadata.DecodeUndoesWrite: JSON text is not modelled; the codec is any pair of functions that round-trips valid metadata.
- Archive search: snippets, date ranges and the early exit over days; lower-casing is one character for one.
- Session windows: records end at line feeds only; carriage returns are part of a record, and splitting a multi-byte character at a window's edge is not modelled.
- Archive: summaries are whatever they are given; loading and saving the day file is not modelled.
- Routes, audio, CLI spawning, embeddings, database and network code, the archive index, title and digest shaping, redaction, budgets and breakers: plumbing, or members that would only be easy.
