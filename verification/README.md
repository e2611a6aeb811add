# DealSeal: a verified model

This project models the parts of DealSeal on which its evidence rests, and proves what they promise. Each
module follows one component of the repository.

**Canonical JSON and the audit chain.** `Texts` holds text as UTF-16 code units, `Json` the plain JSON trees,
`JsonText` the printed form with a reader for it, `JsonEscapes` which escaping that form chooses, and `KeyOrder`
the three orders at work: code units, the order in which JavaScript enumerates the keys of an object (array indices
first), and the order in which a JSONB column of PostgreSQL keeps them (shorter keys first); `Numerals` says what
those orders mean. `Canonical` and `Serialisers` hold the three key-sorting serialisers, `OrderedForms` what their
results are, `AuditChain` the hash chain over any hash function, `AuditLog` the rows that are stored and rebuilt,
and `AuditWriters` any number of writers interleaving around the advisory lock, each of which may fail at any
step, while the database may reorder the keys of stored JSON. `AuditForks` is about the clock: what becomes of the
log when readings repeat or step back. `RawPayloads` is about payloads that hold undefined or Dates.

**The deal lifecycle.** `DealTable` is the transition table, and `TransitionRights` reads it by state and by role.
`ObjectDiff` and `DealData` are the records, their
patches, classifiers and diffs, and `StoredJson` what a JSONB column returns for an object and for a recorded
diff: the same keys and values, at every depth in the column's own order of keys. `Deal` gives every request as a
step from rows to rows, the partial effects of failing requests included; a record and its diff are stored as
their columns will return them. `DealService` is the same on mutable rows, method by method, tied to those steps.
`DealRuns`, `ApprovedData`, `AfterLock`, `VersionHistory` and `PatchRuns` are about whole runs, `DealGuards` and
`RuleChecks` about what the guards promise a caller, and `ReachableCases` reaches deals on which a promise fails.
`PatchOutcomes` and `ExecutionOutcomes` say what a request leaves in the rows, read off the request and the rows
before. A run starts from a deal created in DRAFT. Administrator holds and releases are steps like any other; where a
property does not survive them, the theorem says so.

**Custody.** `Custody` folds events, and follows the ledger and the projection through runs in which each
attempt fails before its commit, fails after it, or succeeds. `CustodyService` holds the projection tables, the
retrying writer and the service, updated in place.

**Timeline, limits, XML, grades.** `Timeline` and `TimelinePages` merge four capped sources and read them by
cursor, and `TimelineKeys` has their sort key as text; `RateLimit` holds the fixed-window limiters over a shared map of buckets; `XmlText` and `Xml` print and
read the package XML; `Grades` computes partner grades over exact arithmetic. `Literals` spells out the texts that
the code spells out.

The hash is any function from text to 64 hexadecimal digits. Clock readings, fresh ids, the documents found in
storage, the active rules, and the outcome of each write attempt are parameters. A request is one atomic step,
except in `AuditWriters`.

Where code and comments disagree the code is modelled: the comment in
`apps/api/src/services/transaction-material-state.ts` says that APPROVED falls to CONDITIONAL, the code puts it
in YELLOW.

Some promises hold only under a condition. The exact condition is proved, and inputs that fail it are exhibited:

- the serialisers differ on keys that look like array indices, and the custody one also on "__proto__";
- a clock reading that repeats or steps back lets the chain fork;
- a hold placed and released returns any deal, a locked one too, to DRAFT without a log row; a lock holds exactly
  as long as no such hold is placed;
- a refused submission still clears the authoritative flags, and a refused failing verification still rejects
  the contract;
- the plain transition to GREEN_STAGE_2 ignores overdue obligations, which the clearance request does not;
- a patch is compared as text with what a column returned, so that an object sent in another order than the
  column's counts as changed. Sending the same identifiers or the same payment plan again can so be material, and
  take an approval away, though nothing changed;
- financial diffs record fractions of a cent that the column rounds away, so that such a history does not replay
  and such a patch is material each time it is sent;
- an audit payload with undefined or a Date in it is hashed in one form and kept in another, so that its row does
  not re-verify. Patches that give a date of birth, or add or remove a key, write such rows;
- object diffs lose a change to a top-level "__proto__" key. Its only caller reads the body with a record schema of
  zod (`apps/api/src/routes/transactions.ts:51-52`), which is not part of this model and is not known to let such a
  key through, so this is a property of the service and not of the route. Without such keys every history replays;
- a walk through the timeline ends at the caps, so it is complete only when every source fits its cap;
- a partner key with a limit of zero still gets its first request through;
- a carriage return, a character that XML does not allow, or a key that is no name spoils the XML round trip.

## Model

| member | source | states |
|---|---|---|
| `JsonText.ReadPrint` | apps/api/src/services/package-certification-service.ts:21-23 | The printed form is uniquely decodable: a reader applied to the text of a plain JSON tree, followed by anything that cannot continue it, gives back that tree and the rest |
| `JsonText.PrintInjective` | apps/api/src/services/package-certification-service.ts:21-23 | Two plain JSON trees with one printed form are the same tree, key order included |
| `JsonText.PrintIsWellFormed` | packages/shared/src/audit-hash-chain.ts:26 | Printed JSON has no lone surrogate, so encoding it as UTF-8 loses nothing |
| `JsonEscapes.QuotedAsIs` | apps/api/src/services/package-certification-service.ts:21-23 | A string is printed as itself between quotation marks if and only if its surrogates are paired and it holds no control character, quotation mark or backslash |
| `JsonEscapes.EscapeSpells` | apps/api/src/services/package-certification-service.ts:21-23 | What is printed for a string has no control characters and no lone surrogates, and a reader takes it to the string |
| `JsonEscapes.ShortestSpelling` | apps/api/src/services/package-certification-service.ts:21-23 | Of all texts of that kind it is the shortest, and no other is as short |
| `Literals.JsonWords` | apps/api/src/services/package-certification-service.ts:21-23 | The words of JSON, and the key "__proto__", as they are spelled |
| `Texts.LessMeans` | packages/shared/src/audit-hash-chain.ts:12 | Sorting without a comparator: a text comes first that ends where the two part, or has the smaller code unit there |
| `Texts.Utf8IsRead` | packages/shared/src/audit-hash-chain.ts:26 | The UTF-8 bytes of a text are read back to it |
| `Numerals.ArrayIndicesAre` | apps/api/src/services/package-certification-service.ts:14-18 | Array indices are the decimal numerals of the numbers below 2^32 - 1, and no other keys |
| `Numerals.OrdersMean` | apps/api/src/services/package-certification-service.ts:14-18 | The three orders of keys: by the first differing code unit; indices by number and then the same; indices by number and then by UTF-8 length and bytes |
| `KeyOrder.RebuildKeepsOrder` | apps/api/src/services/package-certification-service.ts:14-18 | Rebuilding an object from its sorted entries keeps them in that order if and only if code-unit order and enumeration order agree on the keys |
| `Canonical.CanonicalDecides` | apps/api/src/services/package-certification-service.ts:10-23 | Two plain JSON trees have the same canonical string if and only if they are equal up to object key order, at every depth |
| `Canonical.StableDecides` | packages/shared/src/audit-hash-chain.ts:4-14 | The same for the audit chain's serialiser |
| `Canonical.StableIsPrintOfSorted` | packages/shared/src/audit-hash-chain.ts:4-14 | Printing members in sorted order is printing the sorted tree |
| `Canonical.NormalIsIdempotent` | apps/api/src/services/package-certification-service.ts:10-19 | Sorting keys twice is sorting them once, at every depth, in each of the three layouts (listed, rebuilt, stored in a column) |
| `Canonical.NormalIsSame` | apps/api/src/services/package-certification-service.ts:10-19 | Sorting keys changes key order and nothing else |
| `Canonical.SameIsEquivalence` | apps/api/src/services/package-certification-service.ts:10-23 | Equality up to key order is symmetric and transitive, so each serialiser splits the trees into classes |
| `OrderedForms.NormalIsTheOrderedForm` | apps/api/src/services/package-certification-service.ts:10-19 | Each sorted form is the one tree equal to the value up to key order whose keys stand in the form's order in every object: as sorted, as enumerated, or as a JSONB column returns them |
| `OrderedForms.StaysExactlyWhenOrdered` | apps/api/prisma/migrations/20260423033209_init/migration.sql:237-238 | A value is its own form, and so comes back from its column as it was sent, if and only if its keys are in that order at every depth |
| `OrderedForms.KeysStandInOrder` | apps/api/src/services/package-certification-service.ts:10-19 | What that order is, key by key |
| `Serialisers.StableAgreesWithCanonical` | packages/shared/src/audit-hash-chain.ts:4-14 | The audit serialiser and the certification serialiser print the same text exactly on the trees where array-index order and code-unit order of the keys agree |
| `Serialisers.IndexKeysSplitTheSerialisers` | packages/shared/src/audit-hash-chain.ts:12-13 | Keys "10" and "9" are a tree on which those two differ |
| `Serialisers.NoIndexKeysAgree` | apps/api/src/services/package-certification-service.ts:14-18 | Trees without array-index keys meet that condition |
| `Serialisers.SortKeys` | packages/custody-ledger/src/canonical-json.ts:10-19 | Filling a plain object key by key yields the sorted tree, less its "__proto__" keys |
| `Serialisers.SortKeysOfObject` | packages/custody-ledger/src/canonical-json.ts:13-18 | The loop over one object's sorted keys |
| `Serialisers.DropProtoHasEntry` | packages/custody-ledger/src/canonical-json.ts:13-18 | What assignment to a plain object keeps: every entry but that of "__proto__", each with what is kept of its value |
| `Serialisers.CanonicalizeAgreesWithCanonical` | packages/custody-ledger/src/canonical-json.ts:6-8 | The custody serialiser agrees with the certification serialiser exactly on trees without a "__proto__" key |
| `Serialisers.CanonicalizeDecides` | packages/custody-ledger/src/canonical-json.ts:6-8 | Its output is the same for two trees if and only if what is left of them without "__proto__" keys is equal up to key order |
| `Serialisers.AllThreeAgree` | packages/custody-ledger/src/canonical-json.ts:6-19 | Without array-index and "__proto__" keys all three serialisers print the same text |
| `AuditChain.PreimageSplits` | packages/shared/src/audit-hash-chain.ts:24-25 | The hashed text splits in one way into previous hash, event (up to key order) and timestamp |
| `AuditChain.PreimageReads` | packages/shared/src/audit-hash-chain.ts:24-25 | The hashed text is the previous hash, then text that a JSON reader reads as the event with sorted keys, then the timestamp |
| `AuditChain.PreimageIsWellFormed` | packages/shared/src/audit-hash-chain.ts:26 | Encoding the hashed text as UTF-8 loses nothing |
| `AuditChain.TamperEvidence` | packages/shared/src/audit-hash-chain.ts:19-27 | Two chains with one tip hash have the same length, timestamps and canonically equal events, or two of their hashed texts differ and have one hash |
| `AuditChain.KeyOrderIsIrrelevant` | packages/shared/src/audit-hash-chain.ts:19-27 | Reordering object keys in stored events never changes the tip |
| `AuditLog.StoredEventIsHashedEvent` | apps/api/src/services/audit-service.ts:60-106 | The event rebuilt from the stored columns is the event that was hashed, through every default and fallback |
| `AuditLog.EventSaysWho` | apps/api/src/services/audit-service.ts:60-77 | The hashed event name by name: organization, deal, actor and action, each with its argument or the fallback for it |
| `AuditLog.EventSaysWhat` | apps/api/src/services/audit-service.ts:60-77 | The same for the kinds, the entity and the resource |
| `AuditLog.EventSaysHow` | apps/api/src/services/audit-service.ts:60-77 | The same for the payload, the deltas and the origin of the request |
| `AuditLog.AuditTable.FindNewest` | apps/api/src/services/audit-service.ts:51-54 | Finds a row no other row is newer than |
| `AuditLog.AuditTable.RecordAudit` | apps/api/src/services/audit-service.ts:48-108 | Appends one row linked to a newest row; on a good log, with a later clock reading, the log stays one chain in time order in which every row re-verifies from its stored columns |
| `AuditLog.LastHashIsTip` | apps/api/src/services/audit-service.ts:79-107 | The last row's hash is the chain hash of the whole log |
| `AuditLog.LogTamperEvidence` | apps/api/src/services/audit-service.ts:79-107 | Two good logs ending in one hash hold the same events, or exhibit a collision |
| `RawPayloads.HashCoversExactlyPlain` | packages/shared/src/audit-hash-chain.ts:4-14 | The text that is hashed is the text of what is kept if and only if the payload holds no undefined and no Date, at any depth |
| `RawPayloads.UnseenIsUnreadable` | packages/shared/src/audit-hash-chain.ts:4-14 | The hashed text of a payload is a text of plain JSON, or stops a JSON reader wherever it stands |
| `RawPayloads.RowVerifiesExactlyWhenPlain` | apps/api/src/services/audit-service.ts:60-107 | A row re-verifies from its stored columns if and only if its payload and deltas hold no undefined and no Date, or two different texts have one hash |
| `RawPayloads.PlainRowIsNewRow` | apps/api/src/services/audit-service.ts:60-107 | Without them it is the row of the audit log above |
| `RawPayloads.PatchRowVerifiesExactly` | apps/api/src/services/transaction-patch-service.ts:193-213 | The row of a buyer patch re-verifies if and only if it gives no date of birth and its diff names neither a date nor a key that was added or removed, or two different texts have one hash |
| `AuditWriters.StepKeepsInv` | apps/api/src/services/audit-service.ts:48-108 | Every step of any writer (queue, lock, read tip, insert, commit, fail, key reordering in storage) keeps the log good and the lock exclusive |
| `AuditWriters.InterleavingsAreSafe` | apps/api/src/services/audit-service.ts:48-108 | In every interleaving of concurrent calls the log only grows, stays one unforked chain, and every row re-verifies even if its JSON keys were reordered in storage |
| `AuditWriters.OneWriterPastTheLock` | apps/api/src/services/audit-service.ts:49 | Two writers are never both past the advisory lock |
| `AuditWriters.CallCompletes` | apps/api/src/services/audit-service.ts:48-108 | While the lock is free a queued call completes in four steps at any later clock reading, with one row more, linked to the last |
| `AuditWriters.NeverStuck` | apps/api/src/services/audit-service.ts:48-108 | As long as calls are in flight one of them can go on |
| `AuditForks.ForksUnlessClockMovesForward` | apps/api/src/services/audit-service.ts:51-107 | Over logs written by reading any newest row: every such log links each row to the one written just before it if and only if every clock reading that another row follows is later than the one before |
| `AuditForks.ForkShowsInHashes` | apps/api/src/services/audit-service.ts:51-107 | The stored hashes form one chain if and only if every row read its predecessor, unless two hashed texts of the log collide |
| `AuditForks.EqualReadingForks` | apps/api/src/services/audit-service.ts:51-57 | A concrete fork: two rows written in one millisecond, and two rows that name one predecessor |
| `AuditForks.BackwardReadingForks` | apps/api/src/services/audit-service.ts:51-57 | A concrete fork: a clock set back by a millisecond, and two rows that name one predecessor |
| `DealTable.Find` | apps/api/src/services/state-transition-config.ts:79-84 | Gives a row for the pair of states, and none exactly when the table has none |
| `DealTable.CandidateTargets` | apps/api/src/services/state-transition-config.ts:100-108 | Collects exactly the states one edge away |
| `DealTable.EdgesAreOrdered` | apps/api/src/services/state-transition-config.ts:16-58 | Approval is entered from validation, execution from approval, the lock from execution, later states from the lock; no edge stands still and from the lock on each edge lowers the rank |
| `TransitionRights.EdgesAreExactly` | apps/api/src/services/state-transition-config.ts:16-58 | From each state the table leads to exactly the listed states |
| `TransitionRights.RightsAreExactly` | apps/api/src/services/state-transition-config.ts:16-98 | Who may take a deal where, role by role, and which moves need the governing agreement |
| `TransitionRights.TransitionSucceedsExactly` | apps/api/src/services/state-guards.ts:17-124 | The exact condition under which a transition succeeds, for every target, in terms of the rows it reads |
| `TransitionRights.TransitionAnswers` | apps/api/src/services/state-engine.ts:38-90 | What a transition answers, check by check |
| `DealGuards.GuardAgreement` | apps/api/src/services/state-engine.ts:24-195 | A transition succeeds if and only if the list of next states shows its target as allowed and the hold check passes |
| `DealGuards.ApprovalConditions` | apps/api/src/services/state-guards.ts:17-64 | The exact conditions under which a deal can be approved |
| `DealGuards.LockConditions` | apps/api/src/services/state-guards.ts:66-97 | The exact conditions under which a deal can be locked; any verified contract will do |
| `DealGuards.DiscrepancyStopsProgress` | apps/api/src/services/state-guards.ts:56-64 | An open discrepancy stops every way into an approved, executed or sealed state |
| `DealGuards.GreenStage2NeedsHardConditions` | apps/api/src/services/final-clearance-service.ts:58-87 | A transition to GREEN_STAGE_2 succeeds if and only if the four hard clearance conditions hold and the role is permitted |
| `DealGuards.GreenStage2IsEarned` | apps/api/src/services/final-clearance-service.ts:58-139 | Of all requests, one brings a deal into GREEN_STAGE_2 if and only if it is a transition to it, or a clearance with nothing overdue, and the hard conditions and the role are there |
| `DealGuards.ClearanceAgreement` | apps/api/src/services/final-clearance-service.ts:92-139 | The clearance request succeeds if and only if the view says eligible and the role is permitted |
| `DealGuards.TransitionIgnoresOverdue` | apps/api/src/services/final-clearance-service.ts:72-87 | The plain transition gets through where clearance refuses exactly when an obligation is overdue |
| `DealGuards.HoldFreezes` | apps/api/src/services/hold-service.ts:34-38 | From the state HOLD only DRAFT can be reached, and not under an active hold |
| `DealGuards.HoldStopsWork` | apps/api/src/services/hold-service.ts:5-40 | Under an active hold no transition, patch or clearance succeeds; verification, and resubmission while it is pending, are not stopped |
| `DealGuards.HoldReopensTheDeal` | apps/api/src/routes/admin.ts:27-89 | A hold placed and released leaves any deal, a locked one too, in DRAFT; its data is open to patches if and only if no other hold is active |
| `DealGuards.SubmitFailsHalfWay` | apps/api/src/services/execution-workflow-service.ts:70-100 | A refused submission has still cleared the authoritative flags, exactly when the state change is what refuses it and a flag was set |
| `DealGuards.VerifyFailsHalfWay` | apps/api/src/services/execution-workflow-service.ts:209-259 | A failed comparison rejects the contract and opens a discrepancy although the request is refused, exactly when a hold is active or the role may not restrict the deal |
| `DealGuards.OthersFailCleanly` | apps/api/src/services/state-engine.ts:49-90 | Every other refused request leaves the deal as it was |
| `ObjectDiff.DiffJsonObject` | apps/api/src/services/transaction-material-classifier.ts:82-96 | The loop records each key whose JSON text changed, with the value before and after |
| `ObjectDiff.DiffReplays` | apps/api/src/services/transaction-material-classifier.ts:82-96 | Replaying the recorded changes rebuilds the later object, deletions included, and reversing them the earlier one, if and only if both agree on the key "__proto__" |
| `ObjectDiff.DiffAtKey` | apps/api/src/services/transaction-material-classifier.ts:82-96 | A diff names exactly the keys whose value changed, "__proto__" excepted, each with the value before and after |
| `StoredJson.ReadBackIsStable` | apps/api/prisma/migrations/20260423033209_init/migration.sql:237-238 | What a JSONB column returns differs from what was sent in key order only, and comes back unchanged when it is stored again |
| `StoredJson.UnorderedIsReordered` | apps/api/prisma/migrations/20260423033209_init/migration.sql:237-238 | {"bb": null, "a": null} does not |
| `StoredJson.StoredDiffReplays` | apps/api/src/services/transaction-material-classifier.ts:82-96 | The diff of an object, as its column returns it, takes the stored object before to the stored object after and back, if and only if both agree on the key "__proto__" |
| `DealData.BuyerDiffReplays` | apps/api/src/services/transaction-patch-service.ts:84-110 | A buyer diff, as stored, takes each stored snapshot to the next and back, exactly when no "__proto__" key changed |
| `DealData.VehicleDiffReplays` | apps/api/src/services/transaction-patch-service.ts:262-284 | A vehicle diff always does |
| `DealData.FinancialsDiffReplays` | apps/api/src/services/transaction-patch-service.ts:448-470 | A financials diff does so forwards if and only if the amount was in whole cents, backwards always |
| `DealData.RoundCentsIsNearest` | apps/api/prisma/migrations/20260423033209_init/migration.sql:313 | The amount column keeps the nearest whole cents; of two as near, the one farther from zero |
| `PatchOutcomes.PatchAccepted` | apps/api/src/services/transaction-patch-service.ts:26-49 | Each patch is accepted if and only if the deal is the organization's, in an editable state, under no hold, and of the expected version; first financials also need an amount |
| `PatchOutcomes.BuyerPatchWrites` | apps/api/src/services/transaction-patch-service.ts:79-186 | An accepted buyer patch leaves each field as the request gives it, or as it was before; a version row is added; besides, only state, log and discrepancies can change |
| `PatchOutcomes.VehiclePatchWrites` | apps/api/src/services/transaction-patch-service.ts:246-358 | The same for the vehicle |
| `PatchOutcomes.FinancialsPatchWrites` | apps/api/src/services/transaction-patch-service.ts:424-545 | The same for the financials |
| `PatchOutcomes.BuyerPatchDemotes` | apps/api/src/services/transaction-material-classifier.ts:36-48 | A patch that gives another name, date of birth or identifiers, and the first one, takes an approval back to YELLOW and a validated deal to DRAFT, with a log row; any other patch leaves the state |
| `PatchOutcomes.VehiclePatchDemotes` | apps/api/src/services/transaction-material-classifier.ts:54-64 | The same for VIN, year, make and model, where no text and an empty one are alike |
| `PatchOutcomes.FinancialsPatchDemotes` | apps/api/src/services/transaction-material-classifier.ts:69-80 | The same for amount, lender, term, rate and payment plan |
| `DealRuns.StepIsStateStep` | apps/api/src/services/state-engine.ts:92-113 | Whatever the request, the state stays, takes a table edge with a log row, is demoted with a log row, or is overwritten by an administrator's hold or release |
| `DealRuns.RunKeepsPhase` | apps/api/src/services/state-guards.ts:66-80 | In every run, holds included: approved and executed states carry their lifecycle phase; sealed states carry LOCKED and a verified executed contract |
| `DealRuns.RunKeepsAuthority` | apps/api/src/services/execution-workflow-service.ts:70-87 | In every run at most one executed contract is authoritative |
| `DealRuns.VerificationNeedsMatch` | apps/api/src/services/execution-workflow-service.ts:146-156 | The first verified contract of a deal comes from a verification, while pending, whose requirement key is empty or the governing reference |
| `ExecutionOutcomes.SubmissionDecides` | apps/api/src/services/execution-workflow-service.ts:29-104 | When a submission is accepted, and what it leaves: one authoritative contract pending verification, all flags before it cleared |
| `ExecutionOutcomes.VerificationDecides` | apps/api/src/services/execution-workflow-service.ts:121-260 | A contract becomes VERIFIED if and only if its document names no requirement or the governing reference; otherwise it is REJECTED and one EXECUTION_MISMATCH is opened, other contracts staying as they are |
| `ExecutionOutcomes.VerificationRefuses` | apps/api/src/services/execution-workflow-service.ts:169-189 | A contract that cannot be verified is refused and nothing changes |
| `ExecutionOutcomes.ClearanceSucceedsExactly` | apps/api/src/services/final-clearance-service.ts:58-139 | The exact condition under which final clearance succeeds, in terms of the rows it reads |
| `ExecutionOutcomes.HoldPlaced` | apps/api/src/routes/admin.ts:27-46 | Placing a hold holds the deal if and only if it is on the deal or on its organization, and overwrites the state only of the organization's own deal |
| `ExecutionOutcomes.HoldReleased` | apps/api/src/routes/admin.ts:60-79 | A release ends that hold alone, and returns a deal in HOLD to DRAFT |
| `ApprovedData.StepKeepsFacts` | apps/api/src/services/transaction-material-state.ts:17-26 | A request that leaves an approval in force leaves the material facts alone |
| `ApprovedData.ApprovedDataIsLocked` | apps/api/src/services/transaction-material-state.ts:17-26 | In every run, holds included: while a deal is approved, executed or sealed, its material facts are those of the latest entry into GREEN_STAGE_1 or APPROVED |
| `AfterLock.LockIsFinal` | apps/api/src/services/hold-service.ts:48-63 | Without administrator holds a locked deal makes at most five further transitions, and its data, version rows and contracts never change again |
| `AfterLock.LockHoldsExactlyWithoutHolds` | apps/api/src/routes/admin.ts:41-46 | A locked deal stays locked or past it between two points of a run if and only if no administrator's hold overwrote its state in between |
| `AfterLock.DemotionIsNoEdge` | apps/api/src/services/transaction-material-state.ts:18-20 | A demotion is never an edge of the table and the way back up always is |
| `AfterLock.LogReplaysTheState` | apps/api/src/services/state-engine.ts:92-113 | The transition log is at every point of a run a path from DRAFT to the current state, along table edges and demotions, if and only if no hold or release overwrote the state |
| `VersionHistory.RunKeepsHistory` | apps/api/src/services/transaction-patch-service.ts:139-186 | After any run the versions of each record are 1..n, each names its predecessor, the last is the live row, and each row was written for one merged record: its snapshot is that record as its columns return it, its diff and its verdict compare that record, as it was sent, with the snapshot before |
| `VersionHistory.BuyerHistoryReplays` | apps/api/src/services/transaction-patch-service.ts:93-186 | The stored buyer diffs rebuild every snapshot from the first if and only if no patch changed a "__proto__" key |
| `VersionHistory.BuyerHistoryUndoes` | apps/api/src/services/transaction-patch-service.ts:93-186 | Undone from the last, they rebuild every snapshot under the same condition |
| `VersionHistory.VehicleHistoryReplays` | apps/api/src/services/transaction-patch-service.ts:262-358 | The stored vehicle diffs rebuild every snapshot |
| `VersionHistory.VehicleHistoryUndoes` | apps/api/src/services/transaction-patch-service.ts:262-358 | Undone from the last, they do too |
| `VersionHistory.FinancialsHistoryReplays` | apps/api/src/services/transaction-patch-service.ts:448-545 | The stored financials diffs rebuild every snapshot if and only if every later amount was given in whole cents |
| `VersionHistory.FinancialsHistoryUndoes` | apps/api/src/services/transaction-patch-service.ts:448-545 | Undone from the last, they always do |
| `VersionHistory.FractionsOfACentAreNotReplayed` | apps/api/src/services/transaction-patch-service.ts:448-545 | An amount of 100.004 over 100 is one that is not rebuilt |
| `VersionHistory.VersionIsTakenOnce` | apps/api/src/services/transaction-patch-service.ts:38-49 | Once a patch with an expected version succeeded, no later patch of that record in the run succeeds with it |
| `PatchRuns.BuyerPatchAgain` | apps/api/src/services/transaction-patch-service.ts:75-186 | An accepted buyer patch sent again changes no contents; it is material, and demotes a deal that can be demoted, if and only if it gives identifiers in another order than their column returns; its diff names the objects that came back reordered, and in them no change |
| `PatchRuns.VehiclePatchAgain` | apps/api/src/services/transaction-patch-service.ts:246-358 | An accepted vehicle patch sent again is never material and moves no state; its diff is empty if and only if its raw object is absent or in the column's order |
| `PatchRuns.FinancialsPatchAgain` | apps/api/src/services/transaction-patch-service.ts:410-545 | An accepted financials patch sent again changes no contents; it is immaterial if and only if it gives no fraction of a cent and its payment object is absent or in the column's order; otherwise it demotes once more |
| `PatchRuns.FinancialsRunReplays` | apps/api/src/services/transaction-patch-service.ts:448-545 | In every run the financials history replays if and only if every accepted patch after the first gave its amount in whole cents, or none |
| `PatchRuns.BuyerRunReplays` | apps/api/src/services/transaction-patch-service.ts:93-186 | In every run the buyer history replays, forwards and backwards, if and only if every accepted patch after the first kept the "__proto__" keys |
| `PatchRuns.PlainRunsReplay` | apps/api/src/services/transaction-patch-service.ts:93-186 | In every run of patches without "__proto__" keys the buyer history replays, forwards and backwards |
| `RuleChecks.OpensExactlyTheFailures` | apps/api/src/services/rules-revaluation-service.ts:123-147 | Re-evaluation keeps earlier discrepancies, leaves one open for each failing rule, and opens nothing else and nothing twice |
| `RuleChecks.ReevaluationIsStable` | apps/api/src/services/rules-revaluation-service.ts:123-147 | Evaluating the same rules again opens nothing more |
| `RuleChecks.FailingRuleBlocks` | apps/api/src/services/rules-revaluation-service.ts:133-146 | With a failing rule only the paths that bypass the discrepancy guard remain |
| `RuleChecks.PatchOpensExactly` | apps/api/src/services/rules-revaluation-service.ts:40-147 | After an accepted patch a code is open if and only if it was, or a rule with it is broken by the stored financials: over a limit, or without a lender where one is wanted; no other rule opens anything |
| `RuleChecks.OverLimitStopsApproval` | apps/api/src/services/rules-revaluation-service.ts:48-67 | Financials over a limit open its discrepancy, and no approval succeeds |
| `RuleChecks.WithinLimitsOpensNothing` | apps/api/src/services/rules-revaluation-service.ts:40-147 | Financials within every limit, with some lender where one is wanted, open nothing |
| `RuleChecks.MissingLenderIsOpened` | apps/api/src/services/rules-revaluation-service.ts:69-76 | A missing or empty lender opens the discrepancy of a rule that wants one |
| `DealService.DealStore.TransitionTransaction` | apps/api/src/services/state-engine.ts:24-131 | Updates state, phase and log as the transition request specifies, or refuses with its error |
| `DealService.DealStore.GetAllowedNextStates` | apps/api/src/services/state-engine.ts:169-199 | Lists each state one edge away with the reason that blocks it |
| `DealService.DealStore.ApplyMaterialStateDemotion` | apps/api/src/services/transaction-material-state.ts:7-37 | Demotes the state and logs it |
| `DealService.DealStore.RunFullRuleReevaluation` | apps/api/src/services/rules-revaluation-service.ts:109-155 | The loop over the rules opens what re-evaluation specifies and bumps the counter |
| `DealService.DealStore.PatchBuyerProfile` | apps/api/src/services/transaction-patch-service.ts:51-220 | Merges, classifies, diffs, demotes, stores a version as its columns return it and re-evaluates, as the patch request specifies |
| `DealService.DealStore.PatchVehicleRecord` | apps/api/src/services/transaction-patch-service.ts:222-401 | The same for the vehicle |
| `DealService.DealStore.PatchDealFinancials` | apps/api/src/services/transaction-patch-service.ts:403-584 | The same for the financials, with the stored amount rounded too |
| `DealService.DealStore.SubmitExecutedSourceInstrument` | apps/api/src/services/execution-workflow-service.ts:29-122 | Clears flags, adds the pending contract and moves the state, or leaves only the cleared flags |
| `DealService.DealStore.VerifyExecution` | apps/api/src/services/execution-workflow-service.ts:159-289 | Verifies the contract, or rejects it, opens a discrepancy and tries to restrict the deal |
| `DealService.DealStore.GetFinalClearanceView` | apps/api/src/services/final-clearance-service.ts:9-90 | Eligible exactly when every listed condition but the informational one is satisfied, that is, the hard conditions hold and nothing is overdue; each overdue obligation is listed |
| `DealService.DealStore.CompleteFinalClearance` | apps/api/src/services/final-clearance-service.ts:92-139 | Refuses when not eligible, else transitions |
| `DealService.DealStore.PlaceHoldOn` | apps/api/src/routes/admin.ts:32-46 | Adds the hold and overwrites the state of a deal of this organization |
| `DealService.DealStore.ReleaseHoldOf` | apps/api/src/routes/admin.ts:63-80 | Deactivates the hold and returns a held deal to DRAFT |
| `ReachableCases.SubmitFailsHalfWayInARun` | apps/api/src/services/execution-workflow-service.ts:70-100 | A run from a created deal ends where a refused submission clears the authoritative flag |
| `ReachableCases.VerifyFailsHalfWayInARun` | apps/api/src/services/execution-workflow-service.ts:209-259 | A run ends where a refused verification rejects the contract |
| `ReachableCases.MatchingKeyLocksInARun` | apps/api/src/services/execution-workflow-service.ts:121-260 | A run ends where a document with the governing reference is verified and the deal is locked |
| `ReachableCases.OverdueIsIgnoredInARun` | apps/api/src/services/final-clearance-service.ts:72-87 | A run ends where clearance is refused for an overdue obligation and the plain transition succeeds |
| `ReachableCases.SameDataRevokesApprovalInARun` | apps/api/src/services/transaction-material-classifier.ts:28-30 | A run writes a buyer and approves the deal; the same request sent again is accepted, leaves the buyer as it was, and takes the approval away |
| `ReachableCases.FractionInARun` | apps/api/src/services/transaction-patch-service.ts:448-545 | A run of two financials patches ends with a history that does not replay |
| `ReachableCases.ProtoInARun` | apps/api/src/services/transaction-patch-service.ts:93-186 | A run of two buyer patches, the later with a "__proto__" key, ends with a history that does not replay |
| `Custody.ReplayMeans` | packages/custody-ledger/src/aggregate.ts:23-54 | Phase, governing hash and blockers of the fold, each read off the events on its own |
| `Custody.VersionCountsEvents` | packages/custody-ledger/src/aggregate.ts:24-27 | The version is the number of distinct events applied to the deal |
| `Custody.AcceptedExactly` | packages/custody-ledger/src/aggregate.ts:56-76 | A command is let through if and only if it names the deal, expects no version or the number of distinct events applied, and exports only what has an event; and what it is answered otherwise |
| `Custody.AppliedAtMostOnce` | apps/api/src/services/custody/postgres-custody-projection.ts:13-16 | In every run each event id is applied at most once, in ledger order |
| `Custody.ReportedMeansExactlyOnce` | apps/api/src/services/custody/postgres-custody-projection.ts:9-71 | A recording that reported success has been applied exactly once, then and ever after |
| `Custody.AgreesWithLedger` | packages/custody-ledger/src/custody-service.ts:98-105 | The projection agrees with the ledger at every point if and only if the projection of every new id committed before the next event was recorded |
| `Custody.LedgerLeadsByMissedWrites` | apps/api/src/services/custody/postgres-custody-projection.ts:9-71 | With ids never reused, the ledger's version of a deal is the projection's plus the number of that deal's writes that were appended and never projected |
| `Custody.DealIsLedgerReplay` | packages/custody-ledger/src/aggregate.ts:20-54 | With ids never reused, the projected aggregate of a deal is the replay of the whole ledger if and only if none of that deal's appended events was missed, whatever was missed on other deals |
| `Custody.SameVersionIsRefused` | packages/custody-ledger/src/aggregate.ts:65-69 | An expected version that was accepted and projected is refused ever after on that deal |
| `CustodyService.ProjectionStore.ApplyCustodyEvent` | apps/api/src/services/custody/postgres-custody-projection.ts:9-71 | One transaction: a duplicate changes nothing, a new event extends the events and folds into its deal's row; the rows stay the fold of the events |
| `CustodyService.ProjectionStore.LoadByDealId` | apps/api/src/services/custody/postgres-deal-aggregate-loader.ts:21-38 | Loads the fold of the deal's applied events; the phase filter never changes it |
| `CustodyService.RetryingWriter.ApplyCustodyEvent` | apps/api/src/services/custody/retrying-projection-writer.ts:14-46 | Attempts until one succeeds; the event is applied once if any attempt committed, however many did; the waits are the doubling delays |
| `CustodyService.DelaysDoubleUpToCap` | apps/api/src/services/custody/retrying-projection-writer.ts:31-34 | The first delay is the base; later ones double up to ten seconds |
| `CustodyService.Service.RecordSystemEvent` | packages/custody-ledger/src/custody-service.ts:113-150 | Appends to the ledger, then projects; the state is that of the run extended by this write |
| `CustodyService.Service.HandleCommand` | packages/custody-ledger/src/custody-service.ts:50-108 | Refuses on the loaded aggregate or records exactly one new event |
| `CustodyService.Service.SuccessMeansExactlyOnce` | packages/custody-ledger/src/custody-service.ts:99-101 | On the service as it stands: a recording that reported success is among the applied events exactly once |
| `Timeline.CapsAreExact` | apps/api/src/services/audit-query-service.ts:81-88 | Keeping the newest n rows of each source leaves the first n items of the merged order unchanged, for any amount of data |
| `Timeline.CappedIsWholeIff` | apps/api/src/services/audit-query-service.ts:81-195 | The capped timeline is the whole one if and only if no selected source exceeds its cap |
| `Timeline.NewerMeans` | apps/api/src/services/audit-query-service.ts:62-64 | An item stands before another if it is later; or as late, and its source's name, or else its id, comes later |
| `TimelineKeys.SortKeyDecides` | apps/api/src/services/audit-query-service.ts:30-32 | For instants printed in one width and in their order, the items are in descending order of their sort keys as text |
| `TimelineKeys.DigitsPrintInOrder` | apps/api/src/services/audit-query-service.ts:30-32 | Decimal digits of a fixed width are such a printing |
| `TimelinePages.FourPagesAreExact` | apps/api/src/services/audit-query-service.ts:81 | For limits of up to 50 the first four pages are those of the whole timeline |
| `TimelinePages.OneSourceIsCut` | apps/api/src/services/audit-query-service.ts:81 | A walk through one source shows its first rows, four times the limit and 200 at most |
| `TimelinePages.PageRunsBackwards` | apps/api/src/services/audit-query-service.ts:202-214 | On every page no item is later than one before it or than the cursor, ties go by source name and id, and all are rows of the selected sources |
| `TimelinePages.WalkRunsBackwards` | apps/api/src/services/audit-query-service.ts:202-214 | So does a whole walk |
| `TimelinePages.CapsCutTheEarliest` | apps/api/src/services/audit-query-service.ts:93-102 | A row that a cap cuts is no later than any row of its source that is kept |
| `TimelinePages.WalkReadsTheRest` | apps/api/src/services/audit-query-service.ts:202-214 | From any cursor the walk terminates and its pages concatenate to exactly what remained, with one request more than full pages |
| `TimelinePages.WalkReadsTheTimeline` | apps/api/src/services/audit-query-service.ts:202-214 | From the first page: no item lost, repeated or out of order, whatever the total |
| `TimelinePages.FirstPageIsExact` | apps/api/src/services/audit-query-service.ts:81-82 | For limits 1..200 the first page is that of the whole timeline |
| `TimelinePages.ParseTypes` | apps/api/src/services/audit-query-service.ts:14-27 | The named sources, or all when none is named |
| `Literals.SourceNames` | apps/api/src/services/audit-query-service.ts:4 | The four sources as they are spelled |
| `TimelinePages.GetTransactionTimeline` | apps/api/src/services/audit-query-service.ts:68-215 | Refuses an unknown deal; else gathers, sorts, filters and cuts into the specified page of sort keys |
| `RateLimit.IntervalBound` | apps/api/src/middleware/rate-limit.ts:11-31 | From any reachable bucket, an interval of k windows admits fewer than k + 1 times the limit |
| `RateLimit.AtMostOneWindowMore` | apps/api/src/middleware/rate-limit.ts:11-31 | Any closed interval as long as k windows admits at most k + 1 times the limit, for any non-decreasing clock |
| `RateLimit.TheBoundIsReached` | apps/api/src/middleware/rate-limit.ts:17-21 | For every limit and every k up to the ticks of a window, some requests get (k + 1) times the limit, less one, into k windows: the strict bound is reached |
| `RateLimit.PartnerAgrees` | apps/api/src/middleware/partner-auth.ts:26-41 | The partner limiter decides every request sequence alike if and only if the limit is at least one |
| `RateLimit.BucketsAreSeparate` | apps/api/src/middleware/rate-limit.ts:7-9 | Limiters with prefixes without a colon never share a bucket, nor does one share a bucket with the API keys |
| `RateLimit.Buckets.Hit` | apps/api/src/middleware/rate-limit.ts:11-31 | One request counts in its own bucket only, and is admitted within the limit |
| `RateLimit.Buckets.Limit` | apps/api/src/middleware/rate-limit.ts:7-31 | The limiter by address: the bucket is that of the prefix and the address, "unknown" when there is none |
| `RateLimit.Buckets.LimitApiKey` | apps/api/src/middleware/rate-limit.ts:33-55 | The API-key limiter; a request without a key passes uncounted |
| `RateLimit.Buckets.LimitPartner` | apps/api/src/middleware/partner-auth.ts:26-41 | The partner middleware, resetting the bucket in place |
| `XmlText.EscIsSimultaneous` | apps/api/src/workers/package.worker.ts:26-27 | The three sequential replacements are one simultaneous substitution |
| `XmlText.EscapedHasNoBrackets` | apps/api/src/workers/package.worker.ts:26-27 | Escaped text has no angle brackets |
| `XmlText.EscIsInjective` | apps/api/src/workers/package.worker.ts:26-27 | Different texts escape differently |
| `XmlText.ReadTextEsc` | apps/api/src/workers/package.worker.ts:26-27 | Escaped text is read back as it was if and only if it is legal in XML and has no carriage return |
| `Xml.ReadWalk` | apps/api/src/workers/package.worker.ts:28-37 | Reading a printed value followed by anything gives its element tree and the rest: tags balance |
| `Xml.XmlRoundTrip` | apps/api/src/workers/package.worker.ts:25-39 | Reading the whole document gives back the element tree if and only if every key is an XML name and every text is legal without carriage returns |
| `Xml.NotReadBack` | apps/api/src/workers/package.worker.ts:25-39 | A lone surrogate or U+F0000 as key, and a carriage return in a text, are not read back |
| `Xml.ScalarTextMeans` | apps/api/src/workers/package.worker.ts:30 | A string is its own text, any other scalar the one of JSON |
| `Xml.ItemTagMeans` | apps/api/src/workers/package.worker.ts:32 | The tag of an array item is the letter i and the numeral of its place |
| `Literals.XmlWords` | apps/api/src/workers/package.worker.ts:27-38 | The entities, the root and the marks of the package XML, as they are spelled |
| `Literals.AsciiNames` | apps/api/src/workers/package.worker.ts:27-38 | Which ASCII characters make an XML name |
| `Grades.OverallInRange` | apps/web/src/lib/counterparty-performance-grades.ts:219-272 | Overall scores stay within 0..100 without being clamped |
| `Grades.WorseDealerNeverGradesHigher` | apps/web/src/lib/counterparty-performance-grades.ts:219-238 | At the same volume a worse record never raises a dealer's overall score, letter or tier |
| `Grades.WorseLenderNeverGradesHigher` | apps/web/src/lib/counterparty-performance-grades.ts:240-273 | The same for a lender in a segment |
| `Grades.LetterSteps` | apps/web/src/lib/counterparty-performance-grades.ts:99-104 | A letter never improves as the score falls, and changes at 88, 74 and 60 |
| `Grades.PreferenceSteps` | apps/web/src/lib/counterparty-performance-grades.ts:106-110 | The same for a dealer's tier, in both of its scores |
| `Grades.ProficiencySteps` | apps/web/src/lib/counterparty-performance-grades.ts:112-116 | The same for a lender's tier |
| `Grades.CycleSteps` | apps/web/src/lib/counterparty-performance-grades.ts:156-169 | The steps of the cycle score and the slope behind the last |
| `Grades.CureSteps` | apps/web/src/lib/counterparty-performance-grades.ts:171-193 | The steps of what slow cures cost |
| `Grades.NeutralScores` | apps/web/src/lib/counterparty-performance-grades.ts:119-180 | Partners without deals, or without closed ones, get neutral scores |
| `Grades.ProblemSamples` | apps/web/src/lib/counterparty-performance-grades.ts:119-139 | What each kind of problem costs, and the most it can cost |
| `Grades.FileSamples` | apps/web/src/lib/counterparty-performance-grades.ts:141-217 | Samples of the stipulation, file, closure and volume scores |
| `Grades.DealerSamples` | apps/web/src/lib/counterparty-performance-grades.ts:219-238 | How much each part weighs in a dealer's overall score |
| `Grades.LenderSamples` | apps/web/src/lib/counterparty-performance-grades.ts:240-273 | How much the parts weigh in a lender's |
| `Grades.ProblemFreeFalls` | apps/web/src/lib/counterparty-performance-grades.ts:119-138 | More alerts, blocked checks or amendments never raise the problem-free score |
| `Grades.SecondGreenFalls` | apps/web/src/lib/counterparty-performance-grades.ts:171-192 | More open stipulations or cure hours never raise the second-green score |
| `Grades.CycleTimeFalls` | apps/web/src/lib/counterparty-performance-grades.ts:156-165 | More cycle hours never raise the cycle score |
| `Grades.JacketFalls` | apps/web/src/lib/counterparty-performance-grades.ts:141-144 | Fewer complete jackets never raise the jacket score |
| `Grades.FileManagementFalls` | apps/web/src/lib/counterparty-performance-grades.ts:195-205 | The file-management score falls with its parts |
| `Grades.DealsClosedFalls` | apps/web/src/lib/counterparty-performance-grades.ts:208-217 | The closure score falls with cycle time |
| `Grades.ProblemFreeScore` | apps/web/src/lib/counterparty-performance-grades.ts:119-138 | The score computed by successive deductions, always within 0..100 |
| `Grades.SecondGreenScore` | apps/web/src/lib/counterparty-performance-grades.ts:171-192 | The score computed by successive deductions, always within 0..100 |
| `Grades.IsJacketComplete` | apps/web/src/lib/counterparty-performance-grades.ts:287-294 | The counting loop says complete exactly when at least three of the four kinds are among the documents |

## Left out

- Routing, authentication, request parsing, billing, storage, queues, webhooks, document rendering and the web interface: input and output, with no state worth proving.
- Non-finite numbers, and objects with a `toJSON` of their own other than Dates, in JSON payloads. `AuditLog`, `AuditWriters` and `AuditForks` are about plain payloads; `RawPayloads` says what undefined and Dates do to a row. Of the callers, the patch requests pass them (`apps/api/src/services/transaction-patch-service.ts:193-213`: `from` or `to` undefined for a key that was added or removed, a Date for the date of birth), and the hash of a governing record, which is not part of this model, is taken over one (`apps/api/src/services/governing-record-service.ts:55`).
- RawPayloads.Kept: an undefined item of an array is kept as null, as `JSON.stringify` writes it; a database client may refuse such an array instead.
- JSON that PostgreSQL refuses to store (the character U+0000, lone surrogates): a patch that gives it is taken to be stored.
- Concurrent patches of one deal, and concurrent projection of events of one deal: the code does not re-check state or version inside its transaction, so each request is one step.
- The hash, the time-stamping service and the ledger: the hash is uninterpreted, and an append to the ledger happens or fails as a whole.
- Tables of discrepancies, tasks, obligations and embodiments kept by other services: a step of a run may put anything there. Lender programs, governing records and lock side effects are not part of this model.
- Rows of rule evaluations, execution verifications and audit events written along the way by deal requests: only what later guards read is kept.
- Parsing of rule expressions: a rule is given as parsed, or as one that does not parse.
- Case folding and trimming of the timeline's type list, and the encoding of the cursor: the list is given as parts and the cursor as the key it encodes.
- Locale collation of sort keys: keys are compared by time, source name and id in code-unit order, and the printing of an instant is any that has one width and keeps the order.
- DealService.DealStore.GetAllowedNextStates: does not model the order of the list, which is sorted by name under a locale.
- Serialisers.SortKeysOfObject: the object under construction is its sequence of entries in enumeration order, not a heap object.
- TimelinePages.GetTransactionTimeline: items are modelled by their sort keys; the rest of each row rides along.
- Grades.WorseDealerNeverGradesHigher: the logarithm in the volume score is a parameter, the same for both records, since volume is fixed; arithmetic is exact, where the code uses floating point.
- Credit tier classification by regular expression, manifest digests and the choice of the authoritative document version: only easy claims.
