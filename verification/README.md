# Verification of the record store

A Dafny model of a local immutable record store: its write-ahead protocols over
plain files, which must survive a crash at any point, and the selection and
accounting that read the result.

`dafny verify dfyconfig.toml` checks the whole project.

## How it is modelled

Each protocol has a module ending in `Disk` that lists every atomic change to the
files - one rename, one durable write, one append or part of one - with a guard that
reads the disk alone. A crash is a process that takes no further step, so what holds
after every step of every run (`...Runs`) holds wherever a process can die. The
commands themselves (`NativeStore`, `GovernanceStore`, `AuditLog`,
`TextProjection.Store`, `ManifestTransaction`) are classes whose methods change the
same files and leave a history that is such a run; their contracts say what one call
does from any state it may find.

SHA-256 is a free constructor, so it is injective, or a parameter where only its hexadecimal
form matters. The renderer and tokenizer, the
query match, timestamp and UUID parsing, and the caller's filter are function
parameters. New ids come from a stream whose members are new and different. Ranks
read from a payload are integers.

| part | modules |
|---|---|
| ledger, liveness, month files | `Ledger`, `Shards`, `Sorting` |
| native compaction | `CompactionPlan`, `NativeDisk`, `NativeRuns`, `NativeRecovery`, `NativeStore` |
| governance | `JsonPointer`, `Authority`, `AuthorityRuns`, `GovernanceDisk`, `GovernanceStore` |
| request audit | `AuditEvent`, `AuditLine`, `AuditCapture`, `AuditDisk`, `AuditRuns`, `AuditLog` |
| context | `Matching`, `Retrieval`, `Budget`, `BudgetLaws` |
| indexes | `TextProjection`, `VectorCheckpoint`, `Fusion` |
| import, redaction, manifest compaction | `ImportPlan`, `Redaction`, `ManifestTransaction` |

## Where the code falls short of its promise

Each of these is a property that is false of the code as it stands, with the
condition under which it does hold, exact wherever it says "if and only if".

- Governance recovery can be stuck. With a transaction pending it succeeds if and only
  if the ledger's last line reads and recovery sees either no line naming the
  transaction and the metadata not yet changed, or its own line alone:
  `GovernanceStore.StuckIffSomethingIsInTheWay`. The audit record is appended without a
  batch journal (src/record/writer/commit.rs:84-92), so a crash inside it leaves a line
  that does not read. The audit types are ordinary types with the default lifecycle
  (src/governance/audit.rs:80-89), so a writer may file another line under the
  transaction, or revoke or supersede its own; a compaction, which takes the governance
  lock without settling what is pending (src/compact/native/run.rs:48-66), then removes
  it. `StuckRuns`, `CompactedAfterTheChangeIsStuck` and `DenyingAnAgent` give runs that
  get to each.
- Governance recovery can drop an announced transaction. The change is made if and only
  if the line that announces it is still seen:
  `GovernanceStore.WordIsKeptIffTheLineIsSeen`. It is not once a compaction removed it
  (`LineIsCompactedAway`), nor while the ledger directory cannot be listed, which reads
  as an empty one (src/governance/audit.rs:163-165) and is what a compaction that dies
  between its renames leaves (`AnnouncedAndSetAside`).
- The ledger accounts for the metadata by lines that still stand in it only as long as
  no compaction, and no repair of a batch that died, removed one:
  `GovernanceDisk.SettledMeansAudited`, `GovernanceStore.AuditIsCompactedAway`. Nothing
  exempts audit records from compaction (src/compact/native/projections.rs:210-249).
- Deny followed by allow restores every permission decision if and only if the actor
  was not already held: `AuthorityRuns.DenyThenAllowRestores`, `DeniedTwiceIsLetGo`.
- A new store has no `receipts/writes` (src/command/init.rs:13-24). Staged without
  it, publication stops after the ledger and recovery finds the receipts unclear
  until some receipt is committed: `NativeRecovery.WithoutReceiptsDirectory`,
  `ReceiptlessStoreIsUnclear`. Otherwise recovery finishes if and only if no writer
  reached a directory still waiting for its replacement:
  `NativeRecovery.ResumableIffNoLateWrite`.
- The text cursor counts records of the month-ordered ledger. From a level index, one
  more append keeps it honest if and only if its month is not before one already
  written: `TextProjection.HonestIffMonthsAdvance`, `StampedBeforeItsTurn`. No clock
  has to be set back for that: a record is stamped before its writer has the lock
  (src/record/writer/mod.rs:92).
- A level text watermark means everything is searchable only while no compaction is
  between its swap and its rebuild, and no pass over the old ledger outlives the
  rebuild: `TextProjection.LevelMeansSearchable`. The writer lock is released in between
  (src/compact/native/run.rs:112-113), and the rebuild may be refused for as long as a
  catch-up runs: `SwapHidesAnAppend`, `PassAcrossCompactionOverclaims`.
- A failed manifest compaction leaves a file behind in exactly three cases: the write
  of a staged source, the write of the staged receipt, and the final rename of the
  receipt, which lets go of its temporary file before renaming it
  (src/compact/receipt.rs:19-24): `ManifestTransaction.LeftBy`, `Transaction.Execute`.
- The content stays within its limit unless nothing is selected and the empty
  rendering alone exceeds it: `BudgetLaws.ContentFitsIff`.
- The source comment on the fusion constant says agreement dominates position. It
  does up to rank 61 in both lists, and two 62nd places only tie with a lone first:
  `Fusion.AgreementOutranks`, `Fusion.SixtyOneIsEnough`.

## Model

| member | source | states |
|---|---|---|
| NativeRuns.StepKeepsInv | src/compact/native/run.rs:83-201 | Every atomic change anyone can make - append, receipt, staging, journal, each half of each rename pair, its undoing, cleanup - keeps the invariant: a sound ledger, two directories each at a known stage, the ledger never behind the receipts |
| NativeRuns.RunKeepsInv | src/compact/native/recover.rs:36-145 | The invariant holds at every moment of every run, so at every moment a process can die in |
| NativeRuns.WholeOrJournaled | src/compact/native/run.rs:83-118 | Without a journal the ledger is live and nothing is set aside; new receipts are never live beside the old ledger |
| NativeRuns.NoRecordIsLost | src/compact/native/recover.rs:70-145 | A record the ledger held at any moment of any run is there at every later one, its link at most cut, unless some compaction published at a moment it was superseded or withdrawn |
| NativeRuns.StagedReadsBack | src/compact/native/apply.rs:43-63 | Reading the staged shards in month order gives exactly the rewritten ledger |
| NativeDisk.MeasureRevealsAppends | src/compact/native/journal.rs:57-79 | Lengths alone tell every append: a directory only ever appended to measures the same exactly when nothing was appended |
| NativeDisk.MeasureRevealsReceipts | src/compact/native/journal.rs:57-79 | The same for receipts: equal measure exactly when no receipt was added |
| NativeRecovery.ResumableIffNoLateWrite | src/compact/native/recover.rs:70-122 | From the journal on, over any run, recovery can finish if and only if no writer reached a directory whose replacement was prepared and not yet live |
| NativeRecovery.RenamesOnlyRunOut | src/compact/native/recover.rs:126-145 | Each rename of a publication or recovery lowers the count of renames owed by one; with none left both directories are published |
| NativeRecovery.NeverStuck | src/compact/native/recover.rs:70-101 | A resumable store with renames owed always has one it can make |
| NativeRecovery.ExactlyTheAppends | src/compact/native/recover.rs:106-145 | From any moment until the next publication the ledger is what it was plus exactly the records appended since, as multisets |
| NativeRecovery.PublishingCompacts | src/compact/native/run.rs:155-201 | Publication replaces the ledger by its live records, in order, links cut |
| NativeRecovery.StagedReceiptsAgree | src/compact/native/apply.rs:90-155 | Staging leaves every kept receipt attesting the line now in the ledger and drops those of removed records |
| NativeRecovery.SurvivorsAgreeWithReceipts | src/compact/native/apply.rs:90-155 | After publication, however many crashes it took, the receipt of each survivor attests the line the ledger holds |
| NativeRecovery.WithoutReceiptsDirectory | src/compact/native/recover.rs:36-67 | A store staged without a receipts directory is unclear to recovery exactly until a receipt is committed, and that alone makes it resumable again |
| NativeRecovery.ReceiptlessStoreIsUnclear | src/compact/native/run.rs:123-139 | From any fresh store without a receipts directory the run stage, journal, die ends where recovery refuses |
| NativeStore.Store.Inspect | src/compact/native/recover.rs:36-67 | Which directories exist tells which step of the journaled publication each is at; the ledger is never unclear, the receipts exactly when none were staged or one was committed between the renames |
| NativeStore.Store.ChangedSinceStaging | src/compact/native/recover.rs:106-122 | True exactly when the measured lengths differ from those the journal holds |
| NativeStore.Store.PublishStep | src/compact/native/recover.rs:126-145 | Moves one directory forward only, whatever half of its pair was done; the ledger read afterwards is the old one if it was published, its rewrite if not |
| NativeStore.Store.Resume | src/compact/native/recover.rs:70-101 | Succeeds if and only if the disk is resumable; success publishes both directories and leaves the ledger, or its rewrite when it was not yet out; a refusal has not moved the directory that holds the newer write |
| NativeStore.Store.RecoverPrevious | src/compact/native/recover.rs:148-194 | Refuses exactly when not resumable, finishes exactly when resumable and settled, and keeps the journal otherwise |
| NativeStore.Store.CompactLocked | src/compact/native/run.rs:43-119 | Does nothing exactly when nothing is dead; otherwise finishes with the rewritten ledger, or fails leaving a journal whose phase says how far it got, resumable whenever the receipts directory exists |
| NativeStore.Store.Publish | src/compact/native/run.rs:155-201 | Publishes ledger then receipts, advancing the phase after each; a failing second rename leaves a resumable store |
| NativeStore.Store.Settle | src/compact/native/run.rs:143-150 | Backups and journal go only when the projections settled; the ledger does not change |
| NativeStore.Store.RunCompaction | src/compact/native/run.rs:27-41 | A dry run changes nothing; an applied one first finishes what an earlier run left, and the outcome and the ledger are fixed by what it finds: refused, unsettled, nothing dead, or the rewrite of the ledger that recovery leaves; settled on a store with receipts it ends with no journal and nothing dead |
| NativeStore.CondemnedIsDead | src/compact/native/projections.rs:13-15 | The condemned points are exactly the dead ids |
| CompactionPlan.Build | src/compact/native/projections.rs:210-249 | The plan lists each dead record once, in ledger order, with the reason read off its tags - withdrawn by either spelling, or else replaced - and each kept record whose target is dead; removed plus retained is the ledger |
| CompactionPlan.KeepsExactlyTheLive | src/compact/native/apply.rs:22-39 | With unique ids and known targets, compaction keeps exactly the records nothing replaces and nothing withdraws, in order, every field but the link as it was, and no link left |
| CompactionPlan.LinkSurvivesIffUnknown | src/compact/native/apply.rs:22-39 | On any ledger, a kept record keeps its link exactly when the target is not in the ledger |
| CompactionPlan.NothingDeadAfterRewrite | src/compact/native/apply.rs:22-39 | Nothing is dead in a rewritten ledger, whatever it was made from |
| CompactionPlan.SecondPlanIsEmpty | src/compact/native/projections.rs:210-249 | A second plan removes and severs nothing |
| CompactionPlan.RewriteIsWellFormed | src/compact/native/apply.rs:22-39 | What compaction leaves again has unique ids and known targets |
| CompactionPlan.CountsOf | src/command/status/counts.rs:35-57 | Live is the number of live records, and superseded, revoked and their overlap are counted exactly |
| CompactionPlan.PlanAgreesWithStatus | src/command/status/counts.rs:35-57 | Removed and retained equal the dead and live counts of the status report |
| CompactionPlan.FromSnapshot | src/vector/coverage.rs:156-208 | The corpus holds, in id order and with its digest, each live record that is of no audit type and, when the filter names types, of a named one; history is exactly the dead and the filtered out; the latter are counted; it fails exactly when one to be indexed has no digest |
| Ledger.PickedInPlace | src/compact/native/projections.rs:210-249 | A filter-map keeps the order, takes each place once and leaves none out |
| Ledger.LiveInPlace | src/compact/native/apply.rs:22-39 | The live records stand in the order of the ledger, each once, and a place is left out exactly when its record is dead |
| Ledger.DeadMeans | src/record/revoke/mod.rs:16-21 | Dead is what carries either spelling of the revocation tag or is the target of a link of any record |
| CompactionPlan.FilterGrows | src/vector/coverage.rs:156-233 | A type added to a filter that names some adds exactly the live records of that type |
| CompactionPlan.CorpusSurvivesCompaction | src/vector/coverage.rs:156-208 | The corpus has the same ids before and after a compaction |
| Shards.AppendSplits | src/record/verify.rs:94-114 | An append lands after its own month and before later ones; nothing follows it exactly when its month is the last |
| Shards.GroupedReadsBack | src/compact/native/apply.rs:43-63 | Filing a month-ordered ledger by month and reading it back is the identity |
| GovernanceDisk.StepKeepsInv | src/governance/mod.rs:78-117 | Each durable change, whole or cut short, any line any other writer appends, and any a repair or a compaction removes, keeps the invariant: loadable metadata, at most one transaction in flight, without effect or announced, and behind what took effect a thread through the lines ever written |
| GovernanceDisk.RunKeepsInv | src/governance/mod.rs:78-117 | The same at every moment of every run: the transactions that took effect lead from the first metadata to the live one, each attested by a line written to the ledger, the lines in the same order; what the ledger shows are lines that were written, in order |
| GovernanceDisk.SettledMeansAudited | src/governance/mod.rs:78-125 | With nothing pending, a thread of lines written leads exactly from the first metadata to the live bytes, and it stands in the ledger as long as no compaction and no repair of a batch removed a line |
| GovernanceDisk.AuditPrecedesChange | src/governance/mod.rs:60-117 | Metadata never changes before the ledger holds a record of that change |
| GovernanceStore.StuckIffSomethingIsInTheWay | src/governance/recover.rs:20-75 | At every moment of every run, whoever wrote the ledger and whatever was removed from it, recovery fails if and only if a transaction is pending and the last line does not read, or no line naming it is seen and the change was made, or the lines naming it are more than its own one |
| GovernanceStore.TornAuditIsStuck | src/governance/audit.rs:118-152 | Cutting the audit append short always leaves a journal recovery refuses |
| GovernanceStore.ForeignLineIsStuckIff | src/governance/recover.rs:20-53 | A line another writer files under the transaction leaves recovery able to settle exactly when it stands alone and is the transaction's own to the letter |
| GovernanceStore.AwayAfterTheChangeIsStuck | src/governance/audit.rs:160-165 | With the ledger directory set aside and the change made, recovery refuses |
| GovernanceStore.StuckRuns | src/governance/audit.rs:118-182 | From any new store, any lawful change has two-step runs that end in a torn line and in a foreign line recovery cannot get past |
| GovernanceStore.WordIsKeptIffTheLineIsSeen | src/governance/audit.rs:160-182 | At every moment of every run, a successful recovery makes the pending change live exactly when the line announcing it is still in the ledger and the ledger directory can be listed |
| GovernanceStore.AnnouncedAndSetAside | src/compact/native/run.rs:43-119 | From any new store, three steps lead to an announced transaction recovery abandons |
| GovernanceStore.LineIsCompactedAway | src/compact/native/projections.rs:210-249 | So do four in which no directory is missing: journal, announcement, the revocation of the audit record, a compaction |
| GovernanceStore.CompactedAfterTheChangeIsStuck | src/compact/native/projections.rs:210-249 | The same with the change made before the compaction ends where recovery refuses |
| GovernanceStore.AuditIsCompactedAway | src/compact/native/projections.rs:210-249 | From any new store, a run ends settled on a change of which no line of the ledger speaks |
| GovernanceStore.DeathIsSettledIff | src/governance/mod.rs:78-125 | Wherever a transaction's process dies, recovery settles what it leaves, save in the middle of the audit line, or before the append while the last line was one that does not read |
| GovernanceStore.DenyingAnAgent | src/governance/reader.rs:19-68 | A concrete lawful change of a new store, so such runs exist |
| GovernanceStore.Store.ForTransaction | src/governance/audit.rs:160-182 | All audit records naming a transaction, an error when a line does not read, and none when the directory cannot be listed |
| GovernanceStore.Store.Vet | src/governance/recover.rs:80-101 | Accepts exactly loadable bytes whose digest is the attested one; of bytes that load it gives the error of the first rule they break |
| GovernanceStore.Store.Recover | src/governance/recover.rs:20-75 | From an arbitrary journal and ledger: succeeds exactly when recoverable, and a refusal says which error; success empties the journal and is idempotent; a refusal changes nothing; metadata is written only when the one audit record says all the journal says and the live store is at its before end |
| GovernanceStore.Store.Complete | src/governance/recover.rs:105-126 | Brings the metadata to the announced bytes and clears the journal |
| GovernanceStore.Store.Plan | src/governance/metadata.rs:53-76 | Plans exactly the metadata the action makes, or gives the error governance has for it |
| GovernanceStore.Store.Transact | src/governance/mod.rs:78-117 | Journal, ledger, metadata, clear: done means one audit record and the after-bytes, and for a death after each of the steps or inside the audit line, or a ledger that cannot be appended to, what exactly is left; an append settles a batch that died with its journal first |
| GovernanceStore.Store.Perform | src/governance/mod.rs:60-125 | A command settles what is pending, or gives the error that keeps it from being settled and changes nothing; then it comes to exactly what Act comes to on the metadata settling left |
| GovernanceStore.Store.Act | src/governance/mod.rs:78-117 | With nothing pending: refused exactly with the error governance gives, unchanged exactly when governance gives the metadata back, and otherwise carried out - done exactly when the process survives and the ledger can be appended to, with one audit record more that names the command, its subject and the bytes it moved between; and what every death and every refused append leaves |
| GovernanceStore.Store.Consider | src/governance/metadata.rs:53-76 | Who governs, then what is admissible, then whether it changes anything: an error is the one governance gives, nothing exactly when the metadata would be what it is, else the bytes that would be written |
| GovernanceStore.Store.CarryOut | src/governance/mod.rs:78-117 | The change is done, dies or is not recorded by the place of death and the state of the ledger alone; done or dead after the swap the metadata is the new bytes, and otherwise recovery can settle it unless the last line is left unreadable |
| AuthorityRuns.EveryConfigIsValid | src/kernel/store.rs:89-200 | Over every run of transfer, grant, revoke, deny and allow the configuration stays valid and its owner governs it |
| AuthorityRuns.ChangeStaysValid | src/governance/metadata.rs:53-76 | Only a grant can be refused by validating its result; every other action let through yields a valid configuration |
| AuthorityRuns.CommandsMean | src/governance/metadata.rs:53-76 | A command is carried out exactly when its issuer owns the store and what it asks is admissible, and then owner, writers, holds and grants are what it says, field by field, and the result validates |
| AuthorityRuns.RefusalsMean | src/governance/metadata.rs:53-76 | A refused command gives the error of the first thing wrong: a hold, not being the owner, then what it asks, in the order it is read |
| AuthorityRuns.CommandsKeepOrder | src/governance/owner.rs:80-88 | What stays on a list of writers, holds or grants stays in its place, grants left with nobody go, and a new hold is put in the order of names |
| AuthorityRuns.OwnerCanAlwaysLift | src/governance/reader.rs:74-103 | At any reachable point the owner can lift any hold |
| AuthorityRuns.OwnerCanHandOverIff | src/governance/owner.rs:21-98 | At any reachable point the owner can hand the store to exactly the well-formed actors it is not and does not hold to reading, as long as no writer and no grant is a wildcard; and then they govern |
| AuthorityRuns.TransferStripsThePreviousOwner | src/governance/owner.rs:21-98 | Right after a transfer the previous owner is refused by all four checks for every namespace, type, payload and predecessor |
| AuthorityRuns.TransferLeavesTheRest | src/governance/owner.rs:80-88 | A transfer changes no decision about anyone but the two owners, however they are spelled |
| AuthorityRuns.RevokeLeavesTheRest | src/governance/grant.rs:97-141 | A revoke takes from every actor exactly what a grant gave by the subject's name, the wildcard included; of an actor that is not the subject it changes no decision unless the subject is the wildcard |
| AuthorityRuns.GrantAddsExactlyItself | src/governance/grant.rs:34-93 | A grant adds exactly the decisions that its own fields spell out, for its subject or for everyone if that is the wildcard, and never past a hold: a record when namespace, type and every bound payload value of both ends match, and a whole type when they match and nothing is bound |
| AuthorityRuns.DenyThenAllowRestores | src/governance/reader.rs:19-103 | Deny then allow restores every decision about everyone if and only if the actor was not already held |
| AuthorityRuns.DeniedTwiceIsLetGo | src/governance/reader.rs:19-103 | A concrete configuration where it does not |
| AuthorityRuns.HeldActorIsRefused | src/kernel/identity.rs:46-132 | A denied actor is refused by every check, and nobody else is affected |
| AuthorityRuns.ChecksMean | src/kernel/identity.rs:15-132 | Each of the four checks in the fields of the configuration: a hold comes before all, the owner alone governs, owner or listed or wildcard writers append anywhere, and a grant covers exactly what its actors, namespace, types and payload values spell |
| AuthorityRuns.ChecksNest | src/kernel/identity.rs:15-132 | Governing implies appending, appending implies every type, a type implies every record of it and every replacement within it |
| AuthorityRuns.ScopedWritesStayInOneGrant | src/kernel/identity.rs:93-132 | Without store-wide access a write is granted exactly when one grant spells out actor, namespace, type and every bound payload value for both ends |
| AuthorityRuns.TwoGrantsDoNotCombine | src/kernel/identity.rs:93-115 | Two grants that each permit one end do not permit the replacement |
| Authority.ValidateReadOnly | src/kernel/store.rs:109-149 | Accepts exactly duplicate-free lists of valid actors without the owner or the wildcard |
| Authority.CharacterClasses | src/kernel/identity.rs:138-140 | The white space and control characters, code point by code point |
| Authority.Validate | src/kernel/store.rs:89-107 | Loadable exactly when every rule holds, and otherwise the error is that of the first rule broken, in the order the rules are read |
| Authority.ValidateGrant | src/kernel/store.rs:162-200 | Accepts exactly well-formed grants, a payload bound excluding every wildcard, and gives the error of the first rule broken |
| Authority.StripGrants | src/governance/owner.rs:80-88 | Editing in place and retaining leaves the grants without the actor and none empty |
| JsonPointer.ValidPointer | src/kernel/store.rs:202-216 | The scan with one character of look-ahead accepts exactly the spellings of reference-token lists (RFC 6901, section 3) |
| JsonPointer.PointerSyntax | src/kernel/store.rs:202-216 | A pointer is empty, or begins with a slash and escapes every tilde |
| JsonPointer.UnescapeInvertsEscape | src/kernel/identity.rs:117-132 | Replacing ~1 then ~0 undoes the escaping of any token (RFC 6901, section 4) |
| JsonPointer.TokensInvertsSpell | src/kernel/identity.rs:117-132 | Reading a spelled pointer gives back its tokens |
| JsonPointer.ResolveFollowsTheTokens | src/kernel/identity.rs:117-132 | Resolving a spelled pointer walks exactly its tokens |
| JsonPointer.TokensName | src/kernel/identity.rs:117-132 | A token is the name of a field of an object, or the numeral of a place in an array, and reaches nothing else (RFC 6901, section 4) |
| JsonPointer.IndexIffNumeral | src/kernel/identity.rs:117-132 | A token is an index exactly when it is the numeral of it: no leading zero, no sign |
| JsonPointer.EscapesAre | src/kernel/identity.rs:117-132 | Which escape is which, and ~01 is ~1 and not a slash |
| JsonPointer.OnlySlashesReach | src/kernel/identity.rs:117-132 | The empty pointer is the whole value, and one that does not begin with a slash reaches nothing |
| AuditRuns.StepKeepsInv | src/audit/writer/transaction.rs:19-102 | Every change of writer or recovery, partial writes included, keeps the ledger whole but for a prefix of the journaled line, and every invocation accounted for once |
| AuditRuns.RunKeepsInv | src/audit/writer/mod.rs:39-58 | The invariant over every run with crashes anywhere |
| AuditRuns.ExactlyOnce | src/audit/writer/reservation.rs:15-123 | With nothing in flight, each published invocation either still has its request or stands in the ledger exactly once; nothing else stands there |
| AuditRuns.NeverTwice | src/audit/writer/transaction.rs:19-102 | In flight or not, no invocation is written twice |
| AuditRuns.WholeLinesAndAPrefix | src/audit/writer/transaction.rs:63-102 | A month file is whole lines and at most a prefix of the line the journal holds |
| AuditRuns.AppendOnly | src/audit/writer/transaction.rs:19-102 | Nothing ever shortens a file or the record of what was written |
| AuditRuns.EveryLineHasACause | src/audit/writer/transaction.rs:19-59 | Over any run, every line in the ledger or on its way is one a running invocation finished with, or of a gone one: its stored checkpoint, else its intent, in every field but two, and those say error and interrupted |
| AuditRuns.UnfinishedIsNoSuccess | src/audit/writer/reservation.rs:72-123 | A line of an invocation that never finished by itself says error and interrupted |
| AuditRuns.ReleasedForGood | src/audit/writer/reservation.rs:9-32 | A lease let go is never held again |
| AuditRuns.HeldIsNeverInterrupted | src/audit/writer/reservation.rs:72-123 | While an invocation's lease is held, no recovery has reclaimed it over the whole run, and whatever line of it stands or is on its way is the one it finished with itself |
| AuditEvent.CapturedFits | src/audit/model.rs:48-88 | Every captured event, as it is and as interrupted, is valid and its line within the limit |
| AuditEvent.LineIsOneLine | src/audit/writer/transaction.rs:28-33 | The only line break of its JSON line is the last character |
| AuditLine.LineTellsTheEvent | src/audit/model.rs:24-46 | Two events with one JSON line agree in every field, the month being that of the timestamp |
| AuditLine.NamesDiffer | src/audit/model.rs:24-46 | No two fields are written under one name |
| AuditLine.NamesAre | src/audit/model.rs:24-46 | The fields are written under these names, in this order |
| AuditEvent.KnownWords | src/audit/capture.rs:162-208 | The words an operation may be told by; any other is one word for unknown |
| AuditCapture.IntentIsCaptured | src/audit/boundary.rs:32-141 | Whatever words, coordinates and environment a caller has, the event an invocation begins with is a captured one, says interrupted until something better is known, and takes each coordinate from the flag, or else the environment |
| AuditCapture.OutcomeIsCapturedIff | src/audit/boundary.rs:143-183 | Whatever its output, the event it ends with is captured if and only if its duration fits 63 bits of microseconds; its outcome and class are those of the command, and of the transport if that failed, and it names the first sixteen ids |
| AuditCapture.CoordinateIsAccepted | src/audit/capture.rs:145-160 | Any value becomes a coordinate the ledger accepts: itself if it is readable and not a credential, and its digest otherwise |
| AuditLog.SoundIsReplayable | src/audit/writer/transaction.rs:63-102 | In every reachable state the journal passes recovery's checks, so replay never refuses |
| AuditLog.Log.RecoverTransaction | src/audit/writer/transaction.rs:63-102 | From any journal: refuses exactly one whose line, digest, month, offset or file does not agree, changing nothing; otherwise writes only the missing suffix, drops the reservation and clears |
| AuditLog.Log.Append | src/audit/writer/transaction.rs:19-59 | Refuses exactly an event that is not valid, and dies exactly when cut short of its line; recorded means one more line and the reservation gone; dying leaves the journal to replay |
| AuditLog.Log.ReclaimOne | src/audit/writer/reservation.rs:72-123 | Of a free request one line is appended: outcome error, class interrupted, every other field that of its checkpoint, or of its intent if it has none; a held one is left alone; what an invocation stored always passes the test |
| AuditLog.Log.RecoverReservations | src/audit/writer/reservation.rs:72-123 | Always succeeds, and leaves requests only to held leases; what is appended is one such line for each invocation that is gone |
| AuditLog.Log.Recover | src/audit/writer/mod.rs:55-58 | Replay then reclaim: always succeeds, every published invocation with a free lease stands in the ledger exactly once, and nothing is appended but the journaled line and lines that say interrupted |
| AuditLog.Log.Begin | src/audit/writer/reservation.rs:16-32 | After recovery, with every gone invocation accounted for once and nothing else appended, the request is published under a held lease |
| AuditLog.Log.Publish | src/audit/writer/reservation.rs:16-32 | Staged under a lease, then renamed into place; the ledger and the journal are not touched |
| AuditLog.Log.SaveOutcome | src/audit/writer/reservation.rs:34-52 | A valid outcome replaces the checkpoint; another changes nothing |
| AuditLog.Log.FinishInvocation | src/audit/writer/reservation.rs:54-57 | Refuses exactly an event that is not valid; otherwise writes it exactly once and removes its request |
| AuditLog.Log.Leave | src/audit/writer/reservation.rs:9-13 | The process ends and its lease with it; nothing else changes |
| Budget.Apply | src/context/budget.rs:29-119 | For an arbitrary counter: fails exactly when required records exceed the record limit; on overflow keeps required alone; otherwise within each tier the selected stand in the order of the candidates, and one left out did not fit beside the earlier tiers and exactly the selected that precede it in the candidates; usage, totals, limits and the degraded flag say what happened |
| BudgetLaws.FirstThatFitsIsTaken | src/context/budget.rs:136-169 | The first candidate of a tier that fits beside the tiers before it is selected, ahead of its tier |
| BudgetLaws.LeftOutDidNotFit | src/context/budget.rs:136-169 | One left out was over the cap or the limit beside the earlier tiers and the selected ahead of it, whatever stands behind it |
| Budget.Take | src/context/budget.rs:136-169 | A pass deals its source, in order, into chosen and left; each choice fitted when made, each omission has the reason that held when it was made |
| Budget.Push | src/context/budget.rs:171-184 | The charges stay equal to the running maximum of the rendered prefixes |
| Budget.Finish | src/context/budget/report.rs:11-86 | Usage is the per-tier sum of charges, content the count of the whole selection, degraded exactly when something was cut for the budget |
| Budget.ChargesMatchContentIffMonotone | src/context/budget.rs:171-202 | Charges equal the content count exactly when no prefix of the selection counts for more than the whole |
| BudgetLaws.ContentFitsIff | src/context/budget.rs:79-107 | The content exceeds its limit exactly when nothing is selected and the empty rendering alone exceeds it |
| BudgetLaws.TotalFitsIff | src/context/budget/report.rs:31-61 | Content plus reserve stays within the effective total exactly when the reserve does |
| BudgetLaws.CoreLeavesTheFloor | src/context/budget.rs:79-107 | After the core pass the charges leave what is protected for relevant, and core stays within its cap |
| BudgetLaws.RecordCapHolds | src/context/budget.rs:136-169 | Selected records never exceed the record cap |
| BudgetLaws.NothingLostNothingTwice | src/context/budget.rs:121-169 | Selected and newly excluded partition the candidates |
| BudgetLaws.SelectionKeepsTierOrder | src/context/budget.rs:29-119 | Selection is required, core, relevant, in that order |
| BudgetLaws.FloorIsKept | src/context/budget.rs:79-107 | For an additive counter and no record cap, relevant records within the floor that fit beside required are all selected |
| Budget.EffectiveTotal | src/context/model/budget.rs:62-69 | The effective total is one of the two limits and within both |
| Budget.ContentLimit | src/context/budget.rs:29-78 | Limit and reserve together are the effective total whenever the reserve fits in it |
| Budget.Protected | src/context/budget.rs:79-107 | What core may not touch is as much of the floor as relevant could use and as fits beside required, and no more |
| Retrieval.Retrieve | src/context/retrieval.rs:78-191 | Fails exactly on an unreadable timestamp it had to read, naming the record, or on a selector whose bound the answer misses, naming the first; otherwise candidates are exactly the judged survivors and exclusions exactly the rest, each in its order |
| Retrieval.EachRecordOnce | src/context/retrieval.rs:117-171 | Each record is a candidate or an exclusion, never both and never neither |
| Retrieval.CandidatesAreDetermined | src/context/retrieval.rs:172-187 | The candidate list depends on nothing but the readable records: not on the order of the ledger, not on records outside the grants |
| Retrieval.ExclusionsAreDetermined | src/context/retrieval.rs:191-191 | The exclusions do not depend on the order of the ledger |
| Retrieval.NotAfterIsAnOrder | src/context/retrieval.rs:172-187 | The comparator is a total order in which only one id ties with itself |
| Retrieval.OrderMeans | src/context/retrieval.rs:172-187 | Tier, preferred source, search rank, rank, matches, recency, id: each criterion decides between candidates the earlier ones leave level |
| Sorting.LeqMeans | src/context/retrieval.rs:172-187 | Strings are ordered as their characters are: a prefix first, and otherwise by the first difference |
| Retrieval.RankReads | src/context/retrieval.rs:142-152 | An ascending selector serves lower numbers first |
| Retrieval.CandidateMeans | src/context/retrieval.rs:128-160 | A record is kept exactly when the filter passes it, it is eligible, and a tag or a strategy finds it; then its score is how many strategies found it, its rank is its payload number, negated when ascending, and it has a source and a search rank only when relevant and mixed; otherwise its reason is the first that holds |
| Retrieval.SupersededMeans | src/context/retrieval.rs:83-92 | For a request of the current state, the superseded are exactly the targets of records the profile may read and some selector selects |
| Retrieval.LastCounts | src/context/retrieval.rs:79-82 | Of two selectors over one type the later one counts |
| Retrieval.OneSourceAnswers | src/context/retrieval/fallback.rs:26-86 | Without top-up the surviving hybrid-only matches are all the preferred source's or none is, and then nothing was displaced |
| Retrieval.TheOtherSourceAnswers | src/context/retrieval/search.rs:77-111 | In a mixed search a hybrid-only match the preferred source does not hold is the other one's |
| Retrieval.KeepTheFirstSourceThatAnswered | src/context/retrieval/fallback.rs:26-49 | Moves exactly the stood-in matches to the exclusions when a preferred one is there, and loses none |
| Retrieval.Collect | src/context/retrieval/search.rs:40-112 | A mixed search offers the union and ranks a record where the preferred source put it, or else where the other did |
| Retrieval.Gather | src/context/retrieval/search.rs:135-171 | One duplicate-free list of everything the reports hold |
| Retrieval.Require | src/context/retrieval.rs:222-244 | Names the first selector whose bound fails - none of its type, or not exactly one - and none exactly when all hold |
| Matching.SetOrWildcardMeets | src/context/matching.rs:127-141 | The five cases are one rule: an absent value is universal, otherwise the two sides share a member |
| Matching.GateIsEligibility | src/context/matching.rs:10-47 | The gate passes exactly the eligible, and gives each reason exactly when it is the first that holds; a record outside the grants is never looked into and cannot make the request fail |
| Matching.ExpiryIsLiveInForce | src/context/matching.rs:168-187 | The payload pointer decides the expiry, or else the first expiry tag; past exactly when it names an instant before the request, malformed exactly when it does not parse |
| Matching.ClassifyMeans | src/context/matching.rs:56-85 | A required tag outranks a core one, either outranks any strategy, and a record is left out exactly when nothing finds it |
| Matching.MatchedInOrder | src/context/matching.rs:56-85 | The strategies a candidate lists are those that find it, in the order its selector names them |
| Matching.MeetingIsSymmetric | src/context/matching.rs:108-141 | Either side may be the list |
| Matching.WildcardIsWider | src/context/matching.rs:96-141 | An exact match is a set-or-wildcard match, unless both sides are the empty list |
| Matching.AbsenceMatchesOnlyAsASet | src/context/matching.rs:96-126 | A record naming nothing at a coordinate matches exactly when the selector reads it as a set |
| Matching.CoordinateDiagnosis | src/context/matching.rs:192-233 | Reports, each once and in the order of the request, exactly the coordinates no readable record meets, with declared and exact-only as they are |
| Matching.UnmatchedExcludes | src/context/matching.rs:96-106 | A reported coordinate is one the gate turned every record away for, through each selector that declares it |
| Matching.Classify | src/context/matching.rs:56-85 | A hybrid-only match is relevant and in the semantic set; a tagged one is never classified otherwise |
| TextProjection.StepKeepsInv | src/projection/mod.rs:49-178 | Appends with non-decreasing months, several passes at once, failures, batches, rebuilds, and compactions that swap the ledger before their rebuild, keep a trusted watermark honest: that prefix of the ledger, that many bytes, all of it indexed |
| TextProjection.RunKeepsInv | src/projection/mod.rs:104-178 | The same at every moment of every run |
| TextProjection.LevelMeansSearchable | src/projection/mod.rs:104-116 | With no swap awaiting its rebuild, a watermark level with the ledger bytes means every record is in the index and the count is the ledger's |
| TextProjection.FailedIsRetried | src/projection/mod.rs:120-151 | With no swap awaiting its rebuild, a record not in the index is at or past the cursor, and the next pass does not take the ledger for level |
| TextProjection.SwapHidesAnAppend | src/compact/native/run.rs:106-115 | Any run that ends with the mark past a swapped-in ledger goes on, by swap, append and one pass, to a level mark and a record never indexed |
| TextProjection.TwoRecordsAndABatch | src/compact/native/run.rs:106-115 | Such runs exist |
| TextProjection.CalmWithoutSwaps | src/projection/mod.rs:104-161 | From a trusted mark, no event but a swap makes it or a pass in flight untrustworthy |
| TextProjection.HonestIffMonthsAdvance | src/record/verify.rs:94-114 | From a level index one more append keeps the cursor honest if and only if its month is not before one already written |
| TextProjection.StampedBeforeItsTurn | src/record/verify.rs:94-114 | A concrete store where it is not |
| TextProjection.PassAcrossCompactionOverclaims | src/projection/mod.rs:104-178 | A complete pass captured before a shrinking swap and finished after its rebuild breaks the cursor |
| TextProjection.Store.CatchUp | src/projection/mod.rs:104-161 | One pass: level costs nothing; otherwise exactly the records past the cursor that are not refused join the index, and the mark moves exactly when none was refused |
| TextProjection.InMonthOrder | src/record/verify.rs:111-114 | Months strictly ascending, all of them |
| TextProjection.ReadCaptured | src/record/verify.rs:38-92 | Reads the directory in the order positions are counted in |
| VectorCheckpoint.Assess | src/command/status/pending.rs:31-57 | Exact: nothing pending if and only if the covered digests are the corpus; a count if and only if they are a proper prefix, and then the positive number beyond it; otherwise unknown, for the reason that holds |
| VectorCheckpoint.PrefixDigest | src/command/status/pending.rs:73-79 | The digest of the joined line digests |
| VectorCheckpoint.ConcatInjective | src/vector/coverage.rs:197-203 | Joined digests of fixed width tell their sequence |
| VectorCheckpoint.AssessAgreesWithFreshness | src/vector/report.rs:163-173 | Current is the same answer as nothing pending and means the marker covers the corpus, lagging that it covers something else, unknown that it cannot be read, and then the same reason is given |
| VectorCheckpoint.ReplacingIsNotCounted | src/command/status/pending.rs:4-13 | Replacing the last record gives no number although the counts are level |
| VectorCheckpoint.FingerprintIsTheFilter | src/vector/coverage.rs:219-233 | Two filters have one fingerprint if and only if they name the same types, and then let the same records through |
| VectorCheckpoint.Dedup | src/vector/coverage.rs:223-225 | A sorted list loses its repeats and nothing else |
| ImportPlan.Plan | src/ingest/jsonl.rs:46-103 | The loop over the growing maps computes the line-by-line plan, its error at the first offending line, and counts that add up |
| ImportPlan.KnownImports | src/ingest/jsonl.rs:135-156 | The maps are the fold over records and evidence in ledger order |
| ImportPlan.KnownMeans | src/ingest/jsonl.rs:135-156 | A digest or legacy id is known exactly when a record carries it; whatever the maps name exists |
| ImportPlan.PlanningTwiceImportsNothing | src/ingest/jsonl.rs:46-103 | Replanning the same lines against the truth extended by the drafts yields no draft and skips every line, whatever evidence the lines carry |
| ImportPlan.EachDigestOnce | src/ingest/jsonl.rs:62-90 | One item per line in order, under its line number; a digest is imported at most once and never when the store had it; new content never takes a legacy id already in use |
| ImportPlan.PlanTracks | src/ingest/jsonl.rs:62-90 | Each item names a record, stored or drafted, that carries its digest |
| ImportPlan.LinksFollowLegacyIds | src/ingest/jsonl.rs:214-232 | A link by legacy id names the record that id stands for at that line, in the store or further up the file, and a raw id counts only when no legacy id is spelled like it |
| ImportPlan.ChangedContentIsRefused | src/ingest/jsonl.rs:75-80 | Once a line is imported, any later file that gives its legacy id to content neither stored nor earlier in the file is refused, at that line if the lines before it plan |
| ImportPlan.TakenIdIsRefusedIff | src/ingest/jsonl.rs:62-80 | A line is refused for its content exactly when its legacy id is taken and its digest is not known, by the store or further up in the file |
| ImportPlan.UnknownTargetIff | src/ingest/jsonl.rs:214-232 | The only other refusal: a new line whose link is spelled like no legacy id in force and is not the id of a record stored or drafted before |
| ImportPlan.DraftsCarryTheirLines | src/ingest/jsonl.rs:158-212 | The drafts are the imported lines in order, content and cited evidence unchanged, with evidence of who wrote the line, when, its digest and its legacy id |
| ImportPlan.NewLinesInPlace | src/ingest/jsonl.rs:62-90 | The imported lines are those whose item says so, in the order of the file |
| ImportPlan.PlanGrows | src/ingest/jsonl.rs:218-232 | Each draft is new and links only to a stored record or an earlier draft |
| ImportPlan.ImportKeepsTheGraph | src/ingest/jsonl.rs:214-232 | A closed acyclic graph stays closed and acyclic |
| ImportPlan.NoWayBack | src/ingest/jsonl.rs:214-232 | In a ranked graph no path of links returns to where it began |
| Fusion.Fuse | src/vector/fusion.rs:73-102 | The output is each record either list names, once, in the exact order, keeping the semantic copy |
| Fusion.SameOrder | src/vector/fusion.rs:66-102 | Any two such outputs are equal, and exchanging the lists gives the same ids in the same places |
| Fusion.CompareIsExact | src/vector/fusion.rs:31-63 | The cross-multiplied comparison is the comparison of the sums of reciprocals |
| Fusion.NeverOverflows | src/vector/fusion.rs:59-63 | The products fit 128 bits for ranks up to 2^40 |
| Fusion.AgreementOutranks | src/vector/fusion.rs:11-16 | A record both lists hold is above every record only one holds if and only if it is above a lone first place |
| Fusion.SixtyOneIsEnough | src/vector/fusion.rs:11-16 | Ranks of 61 or better suffice; two 62nd places tie with a lone first |
| Fusion.RankIsFirstPlace | src/vector/fusion.rs:82-90 | The rank used is the best place of a repeated record |
| Fusion.Ordered | src/vector/fusion.rs:150-179 | With top-up the sources are concatenated, without it the second answers only for an empty first; repeats dropped, cut at the limit, and the source that answered named |
| Fusion.FirstOccurrencesAreASet | src/vector/fusion.rs:171-176 | Dropping repeats loses no record and leaves none twice |
| Fusion.FirstOccurrencesInOrder | src/vector/fusion.rs:171-176 | What is first met first stays first |
| Redaction.Redact | src/defense/scanner.rs:54-85 | Fails exactly when some match is empty, reversed, out of bounds or cuts a character; otherwise the ranges cover exactly the matched bytes and joins, and the text is its gaps verbatim with one marker per range |
| Redaction.Merge | src/defense/scanner.rs:56-78 | Merged ranges are in order, disjoint, on character boundaries, and labelled with every rule that matched inside |
| Redaction.Replace | src/defense/scanner.rs:79-84 | Replacing from the right is the left-to-right rendering |
| Redaction.SpansAreDetermined | src/defense/scanner.rs:54-85 | Matched bytes and joins leave no choice of ranges |
| Redaction.MarkerIsOneToken | src/defense/scanner.rs:87-97 | Whatever a rule is called its marker has one opening and one closing bracket, at its ends, and no line break |
| Redaction.LabelNamesEveryRule | src/defense/scanner.rs:67-76 | No rule that matched inside a range is missing from its label |
| Sorting.SortIsStable | src/defense/scanner.rs:55-55 | Matches that tie are read in the order they were given |
| Redaction.MarkerNamesEveryRule | src/defense/scanner.rs:67-97 | Nor from its marker, in the spelling a marker uses |
| ManifestTransaction.Transaction.Execute | src/compact/apply.rs:13-63 | Succeeds if and only if no step fails, by the machine or by what the files hold, and otherwise stops at the first that does; success replaces every changed source and all four directories, leaves the receipt and nothing else; on a failure every name is as it was, save for exactly the one file the failing step leaves |
| ManifestTransaction.Transaction.StageSources | src/compact/transaction.rs:27-60 | Stops at the first copy that cannot be staged; a failed staging removes what earlier stagings wrote, and not its own half-written file |
| ManifestTransaction.Transaction.CommitSource | src/compact/transaction.rs:110-124 | A source is replaced exactly when it still holds what was planned and both renames are made; a failure leaves it as found |
| ManifestTransaction.Transaction.Commit | src/compact/transaction.rs:67-108 | All sources and directories, or none, and none exactly from the first step that fails |
| ManifestTransaction.Transaction.Swap | src/compact/transaction.rs:156-163 | A failing second rename undoes the first |
| ManifestTransaction.Transaction.RollbackSwaps | src/compact/transaction.rs:165-170 | Brings back each directory set aside |
| ManifestTransaction.Transaction.RollbackSources | src/compact/transaction.rs:172-178 | Brings back each committed source |
| ManifestTransaction.Transaction.Finish | src/compact/transaction.rs:126-154 | The receipt closes it; exactly a failed check or receipt undoes everything |
| ManifestTransaction.Transaction.Abort | src/compact/apply.rs:136-140 | Removes staged copies and the shadow |
| ManifestTransaction.Transaction.StageReceipt | src/compact/receipt.rs:35-65 | Stages the receipt, finds it already there, or fails at the first thing in its way - leaving its file behind exactly when the write failed |

## Left out

- SQLite, Qdrant, embedders, the tokenizer, the scanners and JSON Schema validation: foreign libraries, here parameters or arbitrary outcomes.
- NativeStore.Store.Settle: the provider calls and the drain lease behind `reconcile` are one outcome, settled or not, that gates the cleanup.
- NativeDisk.LineLength: stands in for the bytes of a line; only its being positive is used. `TextProjection.LineBytes` likewise.
- Native journal files: written under a temporary name and renamed, so here present or absent, never torn; the phase is carried and never read, as in the code.
- GovernanceDisk.RunKeepsInv: the ledger is one file; a month rollover between two transactions, where the fragment is in an older file, is not modelled, and a compaction may remove any lines: which ones are superseded or revoked is `CompactionPlan.Build`.
- AuditEvent.ValidEvent: the credential scan inside the test of a coordinate is not repeated when an event is read back; a captured coordinate has passed it, and a UUID and the name of the program are taken to.
- Governance reports, the schema of the audit record and the file lock: formatting and operating-system primitives.
- AuditLog.Log.Begin: descriptor handling, `pending.tmp` and outcome staging files are not modelled; a rename makes each of them whole or absent. A timestamp that does not parse is not an event.
- Budget.Apply: a counter that fails is not modelled; the code propagates its error.
- Retrieval.Retrieve: the searches have run and their hits are given; unmatched coordinates are `Matching.CoordinateDiagnosis`; floating-point ranks are integers.
- Matching.Classify: the literal query match over serialized payloads is a parameter.
- TextProjection.Store.CatchUp: marker files are values, and a mark that cannot be written or read is the event that loses it.
- VectorCheckpoint.Assess: stated for a marker that some pass wrote for a sequence it covered; what makes a marker unusable is not modelled.
- ImportPlan.Plan: parsing of the input lines and the atomic append that follows the plan are not modelled.
- Redaction.Redact: a rule name is a sequence of characters; positions, findings and the editing of a draft are not modelled.
- ManifestTransaction.Transaction.Execute: undoing renames and removals succeed, a second failure during rollback is not modelled, and removing the backups after success always works.
- ManifestTransaction.Transaction.BuildTheShadow: import, rebuild and checks of the shadow store are one outcome.
- The manifest planner: a theorem that no retained line points at a removed record needs a side condition, because only one retention reason flattens the link.
- Command line, protocol server, presentation, telemetry and schema catalogue: plumbing.
- Symbolic links, permissions, process ids and wall-clock time.
- Disk corruption that is not a prefix of a write.
