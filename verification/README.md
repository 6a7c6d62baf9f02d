# A model of goquent, with proofs

These modules model the parts of goquent whose correctness is hardest to see from the
code, and prove what its documentation and tests promise about them. Code that works by
expressions is modelled by functions; code that changes state in steps is modelled by
methods with loops and by classes, each proved against a specification function or a
state machine, about which the main results are then proved.

`dafny verify dfyconfig.toml` checks everything.

## What is modelled

**Command ledger** (`CommandInput`, `CommandSnapshot`, `CommandRoundTrip`,
`LedgerMachine`, `CommandAcceptance`, `LedgerProof`, `LedgerRuns`, `LedgerSteps`,
`LedgerTheorems`, `LedgerCounts`, `LedgerProgress`, `CommandStore`). The canonical command
input of versions 1, 2 and 3 as printer, decoder and fingerprint, and `CommandStore.Run`
as a protocol against a database with atomic transactions and a unique (scope, ID) key. A
step of the machine is one database action of one caller, a crash, a server abort, a
commit whose reply is lost, or a commit that the server performs after its caller has
already been told that the outcome is unknown. The class `Store` runs the Go sequence,
with arbitrary actions of other callers between any two round trips. `LedgerCounts` says,
from the steps' own versions and expectations, which row counts may be committed and
reported. `LedgerProgress` proves that a new caller has a run that succeeds if and only if
its command is accepted and its key is new or holds that very input.

**Schema diff** (`SchemaModel`, `SchemaDiff`, `SchemaMeaning`, `SchemaColumns`,
`SchemaIndexes`, `SchemaConstraints`, `SchemaTables`, `SchemaTheorems`, `SchemaComplete`,
`SchemaCounterexample`, `SchemaAbsence`, `SchemaPartial`, `SchemaPartialIndexes`,
`SchemaPartialConstraints`, `SchemaPartialDrift`, `SchemaLoops`). The comparison of two
schemas with its coverage, identity, ambiguity and definition rules; a meaning of schemas;
and an `Apply` of steps that exists in the model only. `DiffSchemas` is documented as
producing the steps that turn current into desired. That is false when a matched current
table has two indexes whose names differ in case only: `validExtendedIndex` counts exact
names while `indexMap` is keyed by lower-case names, so one index is never looked at and
no marker is set. `SharedIndexKeyIsMissed` gives two such schemas, and `DiffSound` proves
that a complete plan is right if and only if index keys are distinct in every matched
current table. The `SchemaPartial` modules state, for every pair of schemas and so for
partial and legacy ones too, exactly when each definite step is in the plan, object by
object.

**Validated plans and authorization** (`PlanBinding`, `BindingMachine`, `BindingProof`,
`BindingSteps`, `BindingTheorems`, `BindingProgress`, `BindingRuntime`). Handles, sealed
inputs, the provider call and its re-check closure, and dispatch, as a concurrent machine
with a monotone clock and inputs that any step may change. The classes `Runtime` and
`Query` run the Go sequence, and `ValidatedDispatches` proves that a valid handle can be
dispatched. The re-check reads the clock before the executor is called, so the call itself
may fall after an expiry: `LateDispatchHappens` gives a run from the start in which it
does, and `DispatchInTimeExactly` proves when it cannot. From every reachable state about
to dispatch, every continuation dispatches before the decision expires if and only if the
plan needs no authorization, before the handle expires if and only if the call is on no
handle, and before the approval expires if and only if the plan has none. What holds of
every dispatch, `DispatchAuthority`, speaks of the last check.

**Preflight evidence** (`PreflightPlan`, `PreflightCanon`, `PreflightEvidence`,
`PreflightAcceptance`, `PreflightRequirements`, `PreflightVerdict`, `PreflightRuns`,
`PreflightCollector`). Canonical schemas, built plans and their IDs, collections,
receipts, generations (a wrapping 64-bit counter) and verdicts, over runs of several
collectors and arbitrarily edited or decoded artifacts.

**Keyset cursors** (`Cursor`). The generated OR-of-ANDs, its parameters, directed
lexicographic order, and paging.

**Number texts** (`Decimal`, `Lexeme`). `decimalFits` and `validID` against the value of
the text under section 6 of RFC 8259, over the reals.

**Optimistic versions** (`Optimistic`, `OptimisticMeaning`, `OptimisticRuns`). The tree
walk, the accepted updates, what they do to rows, and any number of versioned updates in
transactions of their own on one table.

**Operation compiler** (`OperationCompiler`, `OperationUpdate`, `OperationTheorems`,
`OperationMeaning`, `OperationAcceptance`). The checks on structured reads and updates,
the predicate they compile to, including the conditions `policyBuilder` adds, and the
tenant boundary over whole runs. The default soft-delete test is part of that predicate
exactly under `SoftTested`: a filter on the column replaces it only when the settings do
not register the column. `DeletedReadsExactly` states what this means for reads that ask
for deleted rows, and `RegistrationHidesDeletedPost` gives an accepted one that the
registration empties.

**Bounded JSON and framing** (`Json`, `InputBudget`, `InputScan`, `Framing`,
`FramingShapes`). The value walker, the token scanner and their agreement; the framed
reader and writer, and what the reader makes of any stream.

`Text` holds the string, decimal and sorting functions the modules share.

## Assumptions

- SHA-256 is injective: a digest is modelled by its domain and the value it is taken of.
- JSON texts are structural: a document is a tree with member order, and printing
  determines its length. Go's case-insensitive matching of field names is not modelled;
  wherever it matters the code prints again and compares.
- Strings are sequences of Unicode characters, so invalid UTF-8 does not arise; in
  `Framing` characters are bytes. Case folding and white space are those of ASCII.
- Time is a nondecreasing integer input; randomness, cancellation and every answer of the
  database are nondeterministic inputs.
- A statement and a commit are atomic; rows of the ledger table are written by this
  protocol only; a unique key is unique; all updates of a versioned table go through
  versioned updates of one version column, and its rows are not deleted.

## Model

| member | source | states |
|---|---|---|
| `CommandSnapshot.WalkNames` | orm/command_input.go:155-162 | a field map walked in any order is refused exactly when some name is no identifier, and otherwise always yields the same sorted names |
| `CommandSnapshot.ChargeFields` | orm/command_input.go:165-178 | stops at the first field that breaks the byte or node budget; succeeds exactly when all atoms are representable and the whole charge fits |
| `CommandSnapshot.CommandFields` | orm/command_input.go:151-179 | accepts exactly the maps with at most the permitted columns, identifier names, representable scalars and room in both budgets, and returns the fields in name order, independent of map order |
| `CommandSnapshot.WhereValues` | orm/command_input.go:237-243 | key values in field order; refused exactly when some key value is null |
| `CommandSnapshot.SnapshotKeys` | orm/command_input.go:233-250 | the request of a step is built exactly when no key is null, with columns and keys in canonical order |
| `CommandSnapshot.SnapshotStep` | orm/command_input.go:199-250 | one turn of the step loop accepts exactly the well-formed steps the remaining budgets allow |
| `CommandSnapshot.ExpandHooks` | orm/command_input.go:189-195 | hooks become inserts expecting exactly one row behind the business steps; refused exactly on a bad hook name |
| `CommandSnapshot.SnapshotSteps` | orm/command_input.go:196-251 | the step loop keeps the three document versions, the requests and the budget in step with the specification |
| `CommandSnapshot.SnapshotCommand` | orm/command_input.go:181-265 | accepts exactly the accepted commands (ledger table refused, limits, options) and returns the canonical document of version 1, 2 or 3 with its requests |
| `CommandAcceptance.AcceptedExactly` | orm/command_input.go:181-265 | accepted are exactly the commands with a canonical UUID and a label, 1 to 64 statements in all, allowed steps and hooks with their literal limits, at most 1 MiB of names, values and types and 16384 fields summed over their parts, and a canonical document of at most 1 MiB |
| `CommandAcceptance.NamesExactly` | orm/command_input.go:87-90 | identifiers, labels and command IDs, character by character |
| `CommandSnapshot.CommandDecodeFields` | orm/command_input.go:368-418 | decoding refuses at the first atom that does not print back to itself or repeated name, and otherwise gives the typed map |
| `CommandSnapshot.CommandFingerprint` | orm/command_input.go:292-367 | a stored document has a fingerprint only when decoding and printing it again gives the same document; the digest domain is its version |
| `CommandRoundTrip.DecodeUndoesCanonical` | orm/command_input.go:181-265 | decoding the canonical document of a command restores kind, typed scalars, options and hooks in order, for every version |
| `CommandRoundTrip.AcceptedDocumentsFingerprint` | orm/command_input.go:292-367 | every document printed for an accepted command is accepted back, with its own version and digest |
| `CommandRoundTrip.FingerprintMeansCanonical` | orm/command_input.go:292-367 | a document has a fingerprint if and only if some accepted command prints it |
| `CommandRoundTrip.SameDocumentSameCommand` | orm/command_input.go:181-265 | two accepted commands have equal documents if and only if they are equal apart from the ID, across versions 1, 2 and 3 |
| `CommandRoundTrip.SameDocumentSameRequests` | orm/command_input.go:197-250 | equal documents mean equal statements to dispatch |
| `CommandRoundTrip.AcceptanceIgnoresId` | orm/command_input.go:182-184 | nothing but the ID check looks at the ID |
| `LedgerCounts.PlanMeans` | orm/command_input.go:187-251 | every planned statement is the one its step or hook asks for: kind, table, columns with their values, key columns with their values, and its options |
| `LedgerCounts.ExpectationMeans` | orm/internal/writecheck/check.go:48-72 | a count meets the expectation of a planned statement exactly when it is one for a versioned step or a hook, and the expected number where one is given |
| `LedgerCounts.CommitsMeetOptions` | orm/command_store.go:209-222 | every commit of every reachable state changed the number of rows that its own command's options allow, statement by statement |
| `LedgerCounts.SuccessMeetsOptions` | orm/command_store.go:209-242 | so do the counts of every success, fresh or replayed |
| `LedgerCounts.StatementMovesOn` | orm/command_store.go:209-222 | a statement's count moves the caller on if and only if its step's options allow it; otherwise only the rollback is left |
| `LedgerCounts.RowDecides` | orm/command_store.go:264-299 | for any row whatever: a sound one of this scope and input with the right number of counts replays them, a sound one of another scope or input is a conflict, everything else is corrupt |
| `LedgerProof.SummaryRoundTrip` | orm/command_store.go:284-297 | the stored summary decodes to exactly the counts it was written from |
| `LedgerProof.ReadIsExact` | orm/command_store.go:264-299 | for a row written by this protocol, lookup succeeds with the stored counts exactly when the input is the stored one and is an identity conflict otherwise |
| `LedgerSteps.StepKeepsInv` | orm/command_store.go:125-242 | every database action, crash, lost or late commit reply, rollback and server abort keeps the ledger invariant |
| `LedgerTheorems.ReachableInv` | orm/command_store.go:125-242 | the invariant holds in every reachable state of any number of callers |
| `LedgerTheorems.RunsExtend` | orm/command_store.go:125-242 | a run only adds commits and rows, never changes or removes them, and finished callers keep their answers |
| `LedgerTheorems.ExactlyOnce` | orm/command_store.go:173-242 | for each (scope, ID) at most one commit carries business steps; a ledger row exists if and only if such a commit does; the commit carries exactly the stored input, in order and once |
| `LedgerTheorems.NoPendingRow` | orm/command_store.go:228-234 | no committed ledger row has status 0 |
| `LedgerTheorems.SuccessMeansCommitted` | orm/command_store.go:163-170 | a success names the one commit of its key: same input, same counts, and applied exactly when this caller made it |
| `LedgerTheorems.ReplayAgreement` | orm/command_store.go:159-171 | two successes for one (scope, ID), however far apart in a run, agree on input and counts, and at most one was applied |
| `LedgerTheorems.OtherInputNeverSucceeds` | orm/command_store.go:281-283 | once a commit exists, no caller with another canonical input ever succeeds |
| `LedgerTheorems.DefiniteFailureCommitsNothing` | orm/command_store.go:181-242 | an error other than the unknown outcome means this caller has not committed and never will |
| `LedgerTheorems.LookupDecides` | orm/command_store.go:264-299 | in every reachable state the lookup of an existing row replays it exactly when the input is the stored one, else reports a conflict; it is never found corrupt |
| `LedgerProgress.PlansSpareLedger` | orm/command_input.go:200-202 | no statement of an accepted command, hooks included, is on the ledger table |
| `LedgerProgress.EffectsSpareLedger` | orm/command_input.go:200-202 | in every reachable state no committed or open transaction has a business effect on the ledger table, so ledger rows and effects stay apart |
| `LedgerProgress.AdmissibleSucceeds` | orm/command_store.go:125-242 | an accepted command whose key is new, or holds its very input, has a run to success; with a new key an applied one |
| `LedgerProgress.SuccessIsPossible` | orm/command_store.go:125-242 | from every reachable state a new caller can succeed if and only if its command is accepted and its key is new or holds that input |
| `CommandStore.CheckRow` | orm/command_store.go:274-298 | the row checks of lookup, in their order, decide as the specification of a read row does |
| `CommandStore.Database.Perform` | orm/command_store.go:187-238 | one database action happens exactly when the machine enables it, moves the state exactly as the machine does and keeps the invariant |
| `CommandStore.Store.Lookup` | orm/command_store.go:264-299 | one read: either the caller goes on to reserve, or it is done with the answer the row decides |
| `CommandStore.Store.Rollback` | orm/command_store.go:181-186 | only a confirmed rollback returns its cause; otherwise the outcome is unknown |
| `CommandStore.Store.Reserve` | orm/command_store.go:190-208 | the insert by unique key either reserves, or ends in the duplicate lookup, the error, or the unknown outcome |
| `CommandStore.Store.Execute` | orm/command_store.go:210-222 | one business statement either adds a row count that its own step's options allow, or rolls back |
| `CommandStore.Store.Save` | orm/command_store.go:224-237 | the result is written and the row becomes final, or the transaction rolls back |
| `CommandStore.Store.Commit` | orm/command_store.go:238-241 | success only on a confirmed commit; a failed reply is the unknown outcome |
| `CommandStore.Store.Apply` | orm/command_store.go:173-242 | the sequence from begin to commit ends with the answer at which the state machine of this caller stands |
| `CommandStore.Store.Run` | orm/command_store.go:125-171 | whatever others do between two round trips, the answer is honest: a success reports counts that each step's version or expectation, and each hook, allows; a call that starts after its key is committed never commits again |
| `CommandStore.RunIsHonest` | orm/command_store.go:125-242 | a success means the row with this canonical input and these counts exists, and the counts are those the steps' own options and the hooks allow; applied means this caller committed it; a definite error means it committed nothing |
| `CommandStore.LatecomersNeverCommit` | orm/command_store.go:163-170 | a caller that arrives after the commit of its key does not commit |
| `SchemaLoops.ColumnMap` | orm/migration/schema.go:208-214 | the map loop finds, for each key, the last column of that key |
| `SchemaLoops.IndexMap` | orm/migration/schema.go:216-222 | the map loop finds, for each key, the last index of that key; earlier ones vanish |
| `SchemaLoops.CollectBad` | orm/migration/schema_compare.go:164-180 | the loop over both column lists marks exactly the columns whose key is empty, not simple or repeated |
| `SchemaLoops.DiffTableLoop` | orm/migration/schema.go:80-198 | the column and index loops of one table append exactly the specified steps and markers, in order |
| `SchemaLoops.Compare` | orm/migration/schema_constraints.go:268-321 | the constraint loop compares each name once, in order of first appearance |
| `SchemaLoops.DiffConstraintsLoop` | orm/migration/schema_constraints.go:248-347 | foreign keys and checks of one pair of tables, with duplicate and invalid definitions marked unknown |
| `SchemaLoops.MatchedLoop` | orm/migration/schema_constraints.go:109-135 | the steps of two tables of one identity, legacy pairs without identity included |
| `SchemaLoops.CompareExtendedSchemas` | orm/migration/schema_constraints.go:60-168 | the whole comparison: header markers, desired tables, current tables |
| `SchemaLoops.CompareSchemaDrift` | orm/migration/drift.go:24-45 | the report: incomplete exactly when a step is unknown, drifted exactly when a definite step exists, in complete and incomplete plans |
| `SchemaColumns.ColumnsSound` | orm/migration/schema.go:89-153 | the column steps of a complete comparison turn the current columns into exactly the desired ones |
| `SchemaColumns.ColumnsQuiet` | orm/migration/schema.go:89-153 | in a complete comparison there is no column step exactly when the columns mean the same |
| `SchemaIndexes.IndexesExact` | orm/migration/schema.go:155-195 | complete index steps reach the desired indexes if and only if the current index keys are distinct |
| `SchemaIndexes.KnownIffRawConsistent` | orm/migration/schema_compare.go:90-130 | between valid tables the only unknown is one definition under two raw texts |
| `SchemaIndexes.IndexesQuiet` | orm/migration/schema.go:155-195 | over distinct keys a complete comparison has no index step exactly when the indexes are equal |
| `SchemaConstraints.ConstraintsSound` | orm/migration/schema_constraints.go:268-347 | a complete comparison of foreign keys or checks produces exactly the desired ones |
| `SchemaConstraints.ConstraintsQuiet` | orm/migration/schema_constraints.go:268-347 | equal constraint families give no step |
| `SchemaTables.LocalEffect` | orm/migration/schema_constraints.go:109-135 | applying the steps of a matched pair gives the desired table exactly when the current index keys are distinct |
| `SchemaTables.LocalQuiet` | orm/migration/schema_constraints.go:109-135 | a matched pair that means the same has no step |
| `SchemaTheorems.PlanEffect` | orm/migration/schema_constraints.go:60-168 | what a complete plan makes of the current schema, table by table, nothing else touched |
| `SchemaTheorems.DiffSound` | orm/migration/schema.go:76-78 | a plan without unknown marker turns the current schema into the desired one if and only if no matched current table has two indexes of one lower-case key |
| `SchemaCounterexample.SharedIndexKeyIsMissed` | orm/migration/schema.go:216-226 | the documented promise fails without that condition: a complete plan between two concrete schemas that does not reach the desired one |
| `SchemaComplete.CompleteDefinitionsCompare` | orm/migration/schema_constraints.go:392-429 | for complete definitions in one scope the plan has no marker if and only if equal same-named indexes carry the same raw text |
| `SchemaComplete.EmptyPlanMeansEqual` | orm/migration/drift.go:24-45 | a complete plan is empty, and drift is not reported, exactly when the schemas mean the same (given distinct index keys) |
| `SchemaComplete.DiffComplete` | orm/migration/schema_constraints.go:392-429 | complete definitions, one scope, consistent raw text: no marker, no step exactly when equivalent, drift exactly when not, and the steps reach the desired schema |
| `SchemaAbsence.AbsenceIsNeverGuessed` | orm/migration/schema_constraints.go:374-389 | for every pair of schemas, an unmarked add or drop of a table, column, index, foreign key or check appears only with equal scopes and complete effective coverage on the side that lacks it |
| `SchemaAbsence.ColumnAbsenceIsKnown` | orm/migration/schema.go:89-153 | the same in plain words for columns |
| `SchemaPartial.PlanHas` | orm/migration/schema_constraints.go:79-168 | for every pair of schemas, partial and legacy ones included: a definite step about a uniquely matched pair of tables is in the plan exactly when it is one of the pair's local steps |
| `SchemaPartial.SharedColumnExactly` | orm/migration/schema.go:89-135 | for every pair of schemas: an unambiguous column of both tables gets a definite type, nullability or default step exactly when the normalized types differ, the nullability differs, or both defaults are known and differ; and no add or drop |
| `SchemaPartial.NewColumnExactly` | orm/migration/schema.go:89-135 | a new column is definite exactly when the scopes are equal and the current side vouches for all its columns |
| `SchemaPartial.GoneColumnExactly` | orm/migration/schema.go:136-153 | a dropped column is definite exactly when the scopes are equal and the desired side vouches for all its columns |
| `SchemaPartialIndexes.SharedIndexExactly` | orm/migration/schema.go:155-195 | for every pair of schemas: an index of both tables under one unambiguous name is altered exactly when both definitions are valid and some attribute differs |
| `SchemaPartialIndexes.NewIndexExactly` | orm/migration/schema.go:155-195 | a new index is definite exactly when scopes are equal and the current side vouches for its indexes |
| `SchemaPartialIndexes.GoneIndexExactly` | orm/migration/schema.go:155-195 | a dropped index is definite exactly when scopes are equal and the desired side vouches for its indexes |
| `SchemaPartialConstraints.SharedForeignKeyExactly` | orm/migration/schema_constraints.go:248-347 | for every pair of schemas: a foreign key of both tables under one unambiguous name is altered exactly when both definitions are valid and they differ |
| `SchemaPartialConstraints.SharedCheckExactly` | orm/migration/schema_constraints.go:248-347 | the same for checks |
| `SchemaPartialConstraints.NewForeignKeyExactly` | orm/migration/schema_constraints.go:248-347 | a new foreign key is definite exactly when scopes are equal and the current side vouches for its foreign keys |
| `SchemaPartialConstraints.GoneForeignKeyExactly` | orm/migration/schema_constraints.go:248-347 | a dropped foreign key is definite exactly when scopes are equal and the desired side vouches for them |
| `SchemaPartialConstraints.NewCheckExactly` | orm/migration/schema_constraints.go:248-347 | the same for a new check |
| `SchemaPartialConstraints.GoneCheckExactly` | orm/migration/schema_constraints.go:248-347 | the same for a dropped check |
| `SchemaPartialDrift.NormalizedWords` | orm/migration/parser.go:464-471 | a type text is compared as its lower-case words with one blank between them |
| `SchemaPartialDrift.SameScopeMeans` | orm/migration/schema_constraints.go:45-53 | equal scopes are two known contexts of one dialect, namespace and kind that name the same tables |
| `SchemaPartialDrift.NewTableExactly` | orm/migration/schema_constraints.go:79-168 | for every pair of schemas: a new table is definite exactly when the scopes are equal, both sides list all their tables and the desired context covers it |
| `SchemaPartialDrift.GoneTableExactly` | orm/migration/schema_constraints.go:79-168 | the same for a dropped table |
| `SchemaPartialDrift.ColumnDifferenceDrifts` | orm/migration/drift.go:24-45 | a known difference of an unambiguous column is reported as drift by every plan, complete or not |
| `SchemaPartialDrift.LegacyDifferenceIsKept` | orm/migration/schema_constraints.go:94-131 | two schemas without context or identity still show a changed column type, and drift |
| `PlanBinding.RebuildMeansSealed` | orm/query/binding.go:350-412 | a successful rebuild means settings (the query's and the caller's), operation, inspection, identity, owner, executor and contexts are the sealed ones, field by field, and the handle has not expired |
| `PlanBinding.PassingCheckMeans` | orm/query/authorization.go:241-280 | a passing re-check means an allow for this very request, strictly before its expiry, which no handle, approval or context deadline precedes, over unchanged inputs |
| `PlanBinding.SealedRebuilds` | orm/query/binding.go:272-328 | a validated handle rebuilds while nothing changes, before its expiry: the two halves agree |
| `PlanBinding.RebuildExactly` | orm/query/binding.go:350-412 | a rebuild succeeds if and only if every current input equals its sealed one, the caller's and the query's settings both equal the sealed settings, the binding names this database, schema and dialect with a key of at least 32 bytes, the context is the sealed one and alive, and both clock readings are before the expiry |
| `PlanBinding.ValidateExactly` | orm/query/binding.go:272-328 | validation succeeds if and only if those inputs are consistent among themselves and the expiry lies ahead, and seals exactly them |
| `PlanBinding.RequestExactly` | orm/query/authorization.go:178-229 | a request is made if and only if the material is complete and its ceiling and both context deadlines lie ahead; its ceiling is then the lowest of the three |
| `PlanBinding.AuthorizedExactly` | orm/query/authorization.go:241-280 | a decision is accepted if and only if it allows this very request, the material is unchanged, and it ends after now and no later than the request |
| `PlanBinding.CheckPassesExactly` | orm/query/authorization_execution.go:19-61 | the stored re-check passes if and only if the plan still rebuilds and the decision still holds for the rebuilt material |
| `BindingProof.StepKeepsInv` | orm/query/execution.go:104-233 | every step of any attempt, of the clock and of the mutable inputs keeps the invariant |
| `BindingSteps.ConsumeExactly` | orm/query/binding.go:330-348 | the handle is consumed by the first attempt that tries, and by no other |
| `BindingSteps.RebuildCarries` | orm/query/binding.go:350-412 | what the rebuilt execution carries: owner, context, both expiries and whether it needs authorization |
| `BindingSteps.PlainGate` | orm/query/execution.go:41-102 | a plan made outside validation is gated exactly when planning failed or it needs authorization |
| `BindingSteps.RequestsExactly` | orm/query/authorization_execution.go:19-61 | the provider is asked exactly for plans that are not atomic outside a managed transaction and whose material admits a request |
| `BindingSteps.ReplyExactly` | orm/query/authorization_execution.go:31-39 | a provider error refuses; a decision is kept for the check |
| `BindingSteps.CheckExactly` | orm/query/execution.go:104-136 | an attempt goes on exactly when the plan is its own and ungated, its authorization check passes, its context lives, no expiry has come and it is unused |
| `BindingSteps.BindExactly` | orm/query/execution.go:137-156 | the plan is taken by the first attempt that binds it |
| `BindingSteps.ObserveExactly` | orm/query/observation.go:11-45 | the last check runs exactly where authorization is needed, and its passing alone leads to the executor call |
| `BindingSteps.CanceledRefuses` | orm/query/execution.go:104-136 | once the plan's context or the query's is canceled, no request is made and no check passes |
| `BindingTheorems.DispatchAuthority` | orm/query/observation.go:11-45 | a plan that needs authorization is dispatched only with the provider's recorded permission for that request; at the last check before the executor call it had not expired, it outlives no handle, approval or context deadline, and the inputs read then were the sealed ones |
| `BindingTheorems.DispatchesAreConsumed` | orm/query/execution.go:137-146 | every dispatched plan is ungated and was taken by the dispatching attempt |
| `BindingTheorems.SingleAttempt` | orm/query/binding.go:330-348 | on a handle and its copies at most one call passes consumption, and at most one provider call and one dispatch ever happen |
| `BindingTheorems.FailureConsumes` | orm/query/binding.go:330-348 | a refused attempt consumes the handle for good |
| `BindingTheorems.PlansRunOnce` | orm/query/execution.go:137-146 | one plan is dispatched at most once, however many callers share it |
| `BindingTheorems.DispatchMayComeLate` | orm/query/observation.go:11-76 | from every reachable state about to dispatch under a stored decision, some continuation dispatches at or after that decision's expiry |
| `BindingProgress.DispatchInTimeExactly` | orm/query/observation.go:11-76 | every continuation of a reachable state about to dispatch does so before the decision expires iff the plan needs no authorization, before the handle expires iff the call is on no handle, before the approval expires iff the plan has none |
| `BindingProgress.LateDispatchHappens` | orm/query/observation.go:11-76 | a run from the start dispatches a plan that needs authorization after the allowing decision and the handle have expired |
| `BindingProgress.ValidatedDispatches` | orm/query/binding.go:330-348 | from every reachable state an unused, unexpired handle met by the inputs it was validated over, live contexts and an allowing provider can be dispatched without time passing |
| `BindingRuntime.Runtime.Perform` | orm/query/execution.go:104-233 | an attempt takes a step exactly when the machine enables it, and the invariant and reachability are kept; what whole attempts amount to is `ExecuteValidated` |
| `BindingRuntime.Query.Consume` | orm/query/binding.go:330-348 | the compare-and-swap: won, or the handle was already used |
| `BindingRuntime.Query.RebuildBinding` | orm/query/binding.go:350-412 | a rebuilt execution of this attempt, or a refusal |
| `BindingRuntime.Query.AuthorizeBinding` | orm/query/authorization_execution.go:19-61 | request, one provider call and validation of its answer, or a refusal |
| `BindingRuntime.Query.Ask` | orm/query/authorization_execution.go:31-39 | the provider is called once for the request of this attempt; an error is a refusal |
| `BindingRuntime.Query.CheckPlan` | orm/query/execution.go:104-135 | the plan checks before binding |
| `BindingRuntime.Query.TakePlan` | orm/query/execution.go:137-146 | the compare-and-swap on the plan |
| `BindingRuntime.Query.ObservePlan` | orm/query/observation.go:11-45 | the last check before the executor call |
| `BindingRuntime.Query.CallExecutor` | orm/query/observation.go:47-76 | the executor call is recorded once |
| `BindingRuntime.Query.ExecuteValidated` | orm/query/binding.go:445-452 | whatever others do in between, the handle ends consumed; sent exactly when this attempt dispatched; a loser of the swap never reaches the provider |
| `BindingRuntime.OutcomeMeans` | orm/query/binding.go:330-348 | what the end of an attempt says about the handle and the logs |
| `PreflightCanon.CanonicalForgetsOrder` | orm/migration/preflight.go:160-206 | the canonical schema and its refusal do not depend on the order of tables, indexes, foreign keys, checks or scope names |
| `PreflightCanon.CanonicalIsFixed` | orm/migration/preflight.go:160-206 | canonical schemas are fixed points |
| `PreflightCanon.BuildForgetsOrder` | orm/migration/preflight.go:207-272 | permuting tables, indexes, foreign keys, checks and reference schemas leaves the plan and every plan, step and requirement ID unchanged |
| `PreflightCanon.BuildIsIdempotent` | orm/migration/preflight.go:437-451 | building a built plan changes nothing, so every accepted plan revalidates |
| `PreflightAcceptance.PhasesExactly` | orm/migration/preflight.go:232-256 | the ordering loop accepts exactly steps that depend on earlier steps, none twice, and whose known phases never go back from contract to backfill to expand |
| `PreflightAcceptance.BuiltExactly` | orm/migration/preflight.go:207-272 | a plan is built if and only if it has 1 to 64 ordered steps, at most 64 references, well-formed schemas of one scope with distinct references of one dialect, and asks for at most 64 requirements |
| `PreflightRequirements.AskedExactly` | orm/migration/preflight.go:295-433 | a built plan holds, under the ID of each step, exactly the requirements that the fields of the step and of the two schemas call for: every doubt with its code, every count with its columns, reference and status; none is missing and none is added |
| `PreflightRequirements.CountsExactly` | orm/migration/preflight.go:330-417 | a step to NOT NULL has one null count of exactly its column and dropping NOT NULL none; a unique index has one duplicate count over its key columns and any other none; a foreign key has one orphan count with its columns, reference and referenced columns; each is pending exactly when the schemas make it countable |
| `PreflightRequirements.StepsAreKept` | orm/migration/preflight.go:257-272 | building keeps definitions and phases, gives different steps different IDs and files every requirement under one of them |
| `PreflightEvidence.VerdictMeans` | orm/migration/preflight_view.go:96-121 | the verdict loop says satisfied exactly when every result is a satisfied pending requirement counted zero |
| `PreflightEvidence.BuiltStatuses` | orm/migration/preflight.go:295-435 | no derived requirement is born satisfied |
| `PreflightEvidence.CollectedMeans` | orm/migration/preflight_collect.go:123-199 | a completed collection with every result zero means schema fingerprints equal to the planned one before and after, every target satisfied both times and every count zero |
| `PreflightVerdict.CollectedExactly` | orm/migration/preflight_collect.go:102-199 | a collection completes if and only if the schemas were the planned ones before and after, the connection lived, every pending target was read twice alike and every query answered; it then records every requirement in order with what was seen |
| `PreflightVerdict.VerdictExactly` | orm/migration/preflight_view.go:59-121 | the verdict in all its cases: the first gate that fails (input, missing, collection, time, expiry, origin, count of results) names its code, and past them the first of the worst checks decides |
| `PreflightVerdict.WorstStatus` | orm/migration/preflight_view.go:96-132 | past the gates: unknown if and only if some check is undecided, else unsupported if some is, else unsatisfied if and only if some count found a row, else satisfied |
| `PreflightCollector.CheckSteps` | orm/migration/preflight.go:234-252 | phases never go backwards and dependencies name earlier steps |
| `PreflightCollector.CheckDependencies` | orm/migration/preflight.go:238-244 | dependencies name earlier steps, none twice |
| `PreflightCollector.NumberSteps` | orm/migration/preflight.go:254-267 | the loop that gives steps and requirements their IDs |
| `PreflightCollector.BuildPreflight` | orm/migration/preflight.go:207-272 | the plan that is built, with its IDs and requirements; `PreflightRequirements` and `PreflightAcceptance` say what they are |
| `PreflightCollector.CollectEvidence` | orm/migration/preflight_collect.go:123-199 | the collection the loops assemble from one observation of the database |
| `PreflightCollector.MeasureLoop` | orm/migration/preflight_collect.go:143-174 | results in requirement order, stopping where the original stops |
| `PreflightCollector.RecheckLoop` | orm/migration/preflight_collect.go:175-187 | the second look at every measured target |
| `PreflightCollector.Aggregate` | orm/migration/preflight_view.go:96-121 | lines in requirement order and the worst status |
| `PreflightCollector.Process.Collect` | orm/migration/preflight_collect.go:102-199 | a new attempt supersedes earlier receipts whatever becomes of it, and seals exactly this plan and collection |
| `PreflightCollector.Process.Close` | orm/migration/preflight_collect.go:76-90 | closing invalidates every receipt of the collector |
| `PreflightCollector.Process.Evaluate` | orm/migration/preflight_collect.go:91-98 | the verdict, and what satisfied proves |
| `PreflightRuns.PlanIdDetermines` | orm/migration/preflight.go:207-272 | two built plans with one ID are one plan |
| `PreflightRuns.SatisfiedMeans` | orm/migration/preflight_view.go:59-121 | over every sequence of Collect, Close, Evaluate, edits and JSON round trips: satisfied only for the plan and collection the latest Collect of a still-open collector sealed, aged at most MaxAge (itself at most five minutes), every requirement measured and counted zero |
| `PreflightRequirements.SatisfiedCounts` | orm/migration/preflight_view.go:59-121 | in every run a satisfied verdict means that no step is in doubt and that the NULLs of each step to NOT NULL, the duplicates of each unique index and the orphans of each foreign key were countable, were counted under that step's own ID, and were zero |
| `PreflightRuns.NeverOffline` | orm/migration/preflight_view.go:56-58 | without a collector, or after closing it, nothing is satisfied |
| `Cursor.ValidateCursorColumns` | orm/query/cursor.go:92-127 | accepts exactly non-empty lists of matching length whose columns are acceptable, directions known and values non-null, and normalizes each column |
| `Cursor.CursorPredicate` | orm/query/cursor.go:67-83 | the nested loops build the specified disjunction and bind each parameter |
| `Cursor.ParametersDistinct` | orm/query/cursor.go:72-79 | no two places of the generated predicate share a parameter name |
| `Cursor.ValuesAt` | orm/query/cursor.go:72-79 | each parameter is bound to the value of its column |
| `Cursor.LaterMeans` | orm/query/cursor.go:129-141 | directed lexicographic order is "first difference decides" |
| `Cursor.PredicateMeansOrder` | orm/query/cursor.go:67-83 | for every column list with mixed directions and non-null rows the after predicate holds exactly when the row is strictly later, before when the cursor is |
| `Cursor.LaterTotal` | orm/query/cursor.go:129-141 | two rows are ordered one way, the other way, or tie |
| `Cursor.LaterTransitive` | orm/query/cursor.go:129-141 | the order is transitive |
| `Cursor.LaterIrreflexive` | orm/query/cursor.go:129-141 | no row is later than itself |
| `Cursor.NextPage` | orm/query/cursor.go:44-65 | the page after the first k rows is the next l of them |
| `Cursor.PagingVisitsOnce` | orm/query/cursor.go:44-65 | with a tie-free order and l >= 1, n pages show exactly the first n*l rows, once each and in order, and the next page is empty exactly when all were shown |
| `Lexeme.TakenApart` | orm/operation/types.go:65-68 | prefix, exponent mark and point are found where section 6 of RFC 8259 puts them |
| `Lexeme.FitsExactly` | orm/operation/types.go:68-88 | the decision on trimmed digits and shift is exactly: v*10^s is an integer and abs(v) < 10^(p-s) |
| `Lexeme.DecimalFits` | orm/operation/types.go:56-89 | true exactly when the number fits numeric(p, s); the exponent cut-offs never change the answer |
| `Lexeme.IntegerText` | orm/operation/types.go:44-55 | a Go integer goes through its own decimal text |
| `Lexeme.ValidNumericId` | orm/mcp/input.go:81-138 | a number is accepted as an ID exactly when its value is an integer of magnitude at most 2^53-1, however it is spelled |
| `Lexeme.ValidId` | orm/mcp/input.go:81-138 | accepts exactly strings of at most 1024 decoded bytes, numbers that are safe integers, and nothing else |
| `Optimistic.WalkTree` | orm/query/optimistic.go:51-80 | the recursive closure and the map it fills succeed exactly as specified, with the same map |
| `Optimistic.WalkMeans` | orm/query/optimistic.go:51-80 | a condition tree the walk accepts is exactly the conjunction of the equalities found, for every row |
| `Optimistic.PinKey` | orm/query/optimistic.go:96-110 | a primary key is accepted exactly when all its columns are the declared ones, pinned to integers and not the version |
| `Optimistic.FindKey` | orm/query/optimistic.go:90-113 | exactly one primary key is declared, and it is pinned |
| `Optimistic.CopyRow` | orm/query/optimistic.go:114-120 | a row is copied unchanged exactly when it assigns no protected column, whatever the map order |
| `Optimistic.OptimisticInput` | orm/query/optimistic.go:13-129 | accepts exactly the eligible updates over one pinned primary key, and returns the row with the version raised |
| `Optimistic.MatchesExactly` | orm/query/optimistic.go:121-128 | the rows an accepted update matches are those with every found equality and the expected version |
| `Optimistic.MatchedRowsShareKey` | orm/query/optimistic.go:90-113 | two rows matched by one accepted update have equal, non-null primary keys |
| `Optimistic.MatchesAtMostOne` | orm/query/optimistic.go:13-129 | given a unique primary key an accepted update matches at most one row |
| `Optimistic.MatchesOwnTenant` | orm/query/optimistic.go:84-89 | the matched row belongs to the current tenant |
| `Optimistic.ChangeMeans` | orm/query/optimistic.go:114-128 | the version moves from expected to expected + 1 inside its column's width, tenant and key stay, and the row no longer matches the same update |
| `OptimisticMeaning.PathsMean` | orm/query/write_scope.go:299-333 | table names have at most one dot and references at most two, with identifiers of 1 to 256 letters, digits and underscores between them |
| `OptimisticMeaning.ResolveMeans` | orm/query/tenant_policy.go:128-152 | a reference names a declared column plainly or behind the target's own alias or table name, and nothing else resolves |
| `OptimisticMeaning.WalkExactly` | orm/query/optimistic.go:51-80 | a condition is accepted exactly when every node is generated and transparent, no conjunction is empty and each leaf pins one declared column of its own, not the version, to one detached value; the equalities found are those of the leaves |
| `OptimisticMeaning.AcceptsExactly` | orm/query/optimistic.go:13-129 | a versioned update is accepted if and only if the fields of the query, the settings and the declared table meet the listed conditions, widths and literal limits included |
| `OptimisticMeaning.WritesExactly` | orm/query/optimistic.go:114-129 | column by column: the version is raised, every column the caller assigns (and lists, where there is a list) takes the caller's value, no other column changes |
| `OptimisticRuns.StepKeepsInv` | orm/query/write_results.go:90-147 | every statement, commit, abort and lost reply keeps the invariant of the versioned table |
| `OptimisticRuns.UnbrokenChain` | orm/query/optimistic.go:121-128 | in every interleaving the committed versions of a row form an unbroken +1 chain |
| `OptimisticRuns.WonOnce` | orm/internal/writecheck/check.go:48-64 | each expected version of a row is won by at most one call |
| `OptimisticRuns.NoLostUpdate` | orm/query/optimistic.go:13-129 | whoever read a committed row and later wins with the version it read has replaced exactly the content it read |
| `OptimisticRuns.RefusalIsConflict` | orm/internal/writecheck/check.go:48-72 | a versioned update never affects more than one row: its only refusal by count is the conflict |
| `OptimisticRuns.WinsOwnTenant` | orm/query/optimistic.go:84-113 | every row won belongs to the winner's tenant before and after, and its key never changes |
| `OperationCompiler.DeclaredTenant` | orm/operation/typed_validate.go:88-108 | the tenant column is the one name all scope declarations agree on; refused exactly when they disagree or one is empty |
| `OperationCompiler.CheckFields` | orm/operation/typed_validate.go:125-130 | every selected field is the exact declared column, not forbidden, of a supported declaration |
| `OperationCompiler.CheckValues` | orm/operation/typed_validate.go:78-84 | no supplied value may claim the reserved tenant binding |
| `OperationCompiler.ResolveFilter` | orm/operation/typed_validate.go:137-193 | arity, reserved binding and reference resolution of one filter, in the order the original refuses |
| `OperationCompiler.ResolveFilters` | orm/operation/typed_validate.go:137-197 | every filter resolves, and exactly those the planner does not bind itself are kept, in order |
| `OperationCompiler.TypedValidate` | orm/operation/typed_validate.go:66-225 | accepts exactly the specifications whose limit, tenant, fields, filters and soft-delete column are right |
| `OperationCompiler.CollectRequired` | orm/operation/spec.go:477-500 | a later policy replaces the mode of an earlier one for the same column |
| `OperationCompiler.CheckRequired` | orm/operation/spec.go:371-391 | every enforced required column is filtered on or is the tenant's |
| `OperationCompiler.CheckAllowed` | orm/operation/spec.go:312-366 | fields, operators and directions are declared, supported and permitted |
| `OperationCompiler.ValidateOperation` | orm/operation/spec.go:241-404 | accepts exactly the valid specifications and returns the kept conditions |
| `OperationCompiler.PrepareOperation` | orm/operation/spec.go:156-233 | the plan of an accepted read: table, fields, predicate, order and limit |
| `OperationUpdate.Candidate` | orm/manifest/update_candidates.go:5-19 | a column is a candidate exactly when neither its flags nor a table policy guard it |
| `OperationUpdate.CheckAssignment` | orm/operation/update.go:161-236 | one assignment is accepted exactly when its column is writable and its state and value agree |
| `OperationUpdate.CollectAssignments` | orm/operation/update.go:158-241 | accepts exactly lists of accepted assignments with no name twice, and collects their values |
| `OperationUpdate.PrepareUpdate` | orm/operation/update.go:133-302 | the plan of an accepted update: predicate, values and returned fields |
| `OperationTheorems.PredicateMeans` | orm/operation/spec.go:184-205 | the compiled predicate holds of a row exactly when every filter of the specification is true of it as written (its operator word, its own, named or tenant value), the row is the application tenant's and the default soft-delete test is met |
| `OperationTheorems.SelectMeans` | orm/operation/spec.go:156-233 | the same for every accepted read, against the specification's own filters |
| `OperationTheorems.UpdateMeans` | orm/operation/update.go:260-282 | the same for every accepted update, against the specification's own filters |
| `OperationTheorems.OperatorMeans` | orm/operation/spec.go:535-556 | the operator a filter compiles to is the comparison its trimmed lower-case text names |
| `OperationTheorems.ArgumentMeans` | orm/operation/typed_validate.go:137-193 | the argument is the filter's own value, the named value, or the application tenant |
| `OperationTheorems.ResolvedMeans` | orm/operation/typed_validate.go:137-197 | a resolved condition is true of a row exactly when the filter as written is |
| `OperationMeaning.NormalizedName` | orm/operation/spec.go:589-598 | letter case, a qualifier and one pair of quotes do not make a different name |
| `OperationMeaning.TenantIsDeclared` | orm/operation/typed_validate.go:88-108 | the tenant column is the one name every scope declaration gives, if any does |
| `OperationAcceptance.TenantIsNamed` | orm/operation/typed_validate.go:88-108 | where every scope declaration gives one name that is the tenant column, and without a declaration there is none |
| `OperationMeaning.SoftColumnMeans` | orm/operation/spec.go:502-514 | the soft-delete column is that of the first such policy that names one, else the first column flagged so, else none |
| `OperationMeaning.AcceptedFilter` | orm/operation/typed_validate.go:137-197 | an accepted filter has a known operator on an exact column and one argument that is there, and speaks of the tenant column only as "= current_tenant" |
| `OperationMeaning.PlanCarries` | orm/operation/spec.go:206-233 | the plan of an accepted read carries its table and fields, each ordering ascending unless it says otherwise, and its limit |
| `OperationMeaning.UpdateWrites` | orm/operation/update.go:161-236 | an accepted update writes each assigned value, clears each assigned null and leaves each unchanged column, in every row it matches |
| `OperationMeaning.UpdateLeaves` | orm/operation/update.go:161-236 | a column no assignment mentions keeps its value |
| `OperationMeaning.AcceptedAssignment` | orm/operation/update.go:161-236 | an accepted assignment names an exact column that neither the manifest nor the settings guard, and is null only where the column is known to allow it |
| `OperationAcceptance.CheckedExactly` | orm/operation/typed_validate.go:228-386 | a field is accepted exactly when it is the exact name, alone or behind the table's, of the first column of its normal form, that column is not forbidden, and its declared type admits the operator and every argument |
| `OperationAcceptance.FilterExactly` | orm/operation/typed_validate.go:137-193 | a filter is accepted if and only if its word is known, its arguments are right in number and there, it pairs the tenant column with the reserved reference in an equality, and its column suits |
| `OperationAcceptance.RequirementsExactly` | orm/operation/spec.go:477-500 | the last policy about a name, else a column flag, decides whether it must be filtered on; accepted if and only if each such name is, or is the tenant's |
| `OperationAcceptance.ManifestExactly` | orm/operation/typed_validate.go:44-64 | a manifest is accepted if and only if it is of version 1 and its tables, and the columns of each, have names that differ in normal form |
| `OperationAcceptance.ReadAcceptedExactly` | orm/operation/spec.go:241-404 | a structured read is accepted if and only if header, table, fields, sensitive fields' reason, filters, order, limit, tenant, soft-delete column and required filters meet the listed conditions on the fields of the specification, the manifest and the settings |
| `OperationAcceptance.UpdateAcceptedExactly` | orm/operation/update.go:133-302 | a structured update is accepted if and only if its filters and returned fields are, every assignment is of an unguarded exact column with a state and value that agree, no name is assigned twice and something is written |
| `OperationTheorems.TenantFilterMeans` | orm/operation/typed_validate.go:165-177 | every accepted filter on the tenant column says tenant = application tenant |
| `OperationTheorems.RegisteredSoftDeleteWins` | orm/query/tenant_policy.go:402-447 | an accepted read that asks for deleted rows matches nothing when the settings register the soft-delete column |
| `OperationTheorems.DeletedReadsExactly` | orm/query/tenant_policy.go:402-447 | an accepted read that asks for deleted rows gives what its filters and tenant say if the settings register no soft-delete column, and nothing otherwise |
| `OperationTheorems.RegistrationHidesDeletedPost` | orm/operation/spec.go:184-205 | one read, accepted with and without the registration, finds a deleted row without it and misses it with it |
| `OperationTheorems.AnswersDependOnOwnRows` | orm/operation/typed_validate.go:66-225 | two databases that agree on the tenant's rows answer every accepted read alike |
| `OperationTheorems.WritableIsNotTenant` | orm/manifest/update_candidates.go:5-19 | however the manifest declares the tenant column, no writable column is it |
| `OperationTheorems.UpdateKeepsGuarded` | orm/operation/update.go:174-187 | guarded columns keep their stored values |
| `OperationTheorems.UpdateKeepsTenant` | orm/operation/update.go:174-187 | no accepted update changes the tenant column of any row |
| `OperationTheorems.OtherSliceStays` | orm/operation/update.go:133-302 | an accepted update leaves the rows of every other tenant as they were |
| `OperationTheorems.OwnSliceUpdates` | orm/operation/update.go:133-302 | what it does to its own tenant's rows depends on those rows alone |
| `OperationTheorems.TenantsAreAlone` | orm/operation/update.go:133-302 | over every run of updates by any tenants, each tenant's rows evolve as if that tenant were alone in the table |
| `OperationTheorems.ReadsAfterRun` | orm/operation/spec.go:156-233 | so what a tenant reads after the run does not depend on the other tenants |
| `OperationTheorems.RequiredColumnsAreBound` | orm/operation/spec.go:371-391 | a column whose filter is enforced really is filtered on |
| `InputBudget.Walker.Add` | internal/inputjson/budget.go:90-96 | bytes are charged exactly when they fit |
| `InputBudget.Walker.Quote` | internal/inputjson/budget.go:97-104 | the length pre-check never refuses a text whose quoted form would fit |
| `InputBudget.Walker.Walk` | internal/inputjson/budget.go:106-179 | the shared counters after a value are the old ones plus its nodes and printed bytes; success exactly within the limits |
| `InputBudget.Walker.WalkItems` | internal/inputjson/budget.go:159-175 | the same for lists, element by element |
| `InputBudget.Walker.WalkMembers` | internal/inputjson/budget.go:135-158 | the same for maps in any walk order; two names that differ in case only are refused |
| `InputBudget.Size` | internal/inputjson/budget.go:88-184 | succeeds exactly for values within depth, node and byte limits without such names; the number is the length of the printed text |
| `InputScan.Scanner.Scan` | internal/inputjson/budget.go:26-76 | the recursive closure consumes the decoder's tokens exactly as specified |
| `InputScan.CheckJSON` | internal/inputjson/budget.go:19-84 | accepts exactly the documents the specification accepts |
| `InputScan.ScanPrinted` | internal/inputjson/budget.go:26-76 | scanning a printed value consumes exactly it, and succeeds exactly within the limits |
| `InputScan.CheckAcceptsTrees` | internal/inputjson/budget.go:19-84 | the scanner accepts exactly the token streams of trees within the limits |
| `InputScan.ShuffledAgrees` | internal/inputjson/budget.go:135-158 | length, nodes, depth and name clashes do not depend on the order of any map, at any depth |
| `InputScan.WalkerAgreesWithScanner` | internal/inputjson/budget.go:19-184 | the walker accepts a value if and only if the scanner accepts its printed text, the number is that text's length, and map iteration order never matters |
| `Framing.Connection.ReadSlice` | orm/mcp/jsonrpc.go:217-217 | a part of the stream up to the line feed, the buffer size or the end |
| `Framing.Connection.ReadLine` | orm/mcp/jsonrpc.go:214-234 | the parts joined are the first line, charged against the shared budget |
| `Framing.Connection.ReadMessage` | orm/mcp/jsonrpc.go:212-273 | the loops read exactly the specified message and leave exactly what follows it |
| `Framing.WriteFramed` | orm/mcp/jsonrpc.go:275-280 | the bytes written for a payload |
| `Framing.ReadUndoesWrite` | orm/mcp/jsonrpc.go:212-280 | reading a written payload of at most 1 MiB gives that payload and leaves what follows |
| `Framing.FramingRoundTrip` | orm/mcp/jsonrpc.go:212-280 | any list of such payloads is read back in order and then the stream ends cleanly |
| `Framing.CutFrameIsRefused` | orm/mcp/jsonrpc.go:254-273 | a frame cut short anywhere is an error, never a message and never a clean end |
| `Framing.DamageIsReported` | orm/mcp/jsonrpc.go:212-273 | a stream broken off inside a frame yields the whole messages before it and then the error |
| `Framing.MessagesAreBounded` | orm/mcp/jsonrpc.go:212-273 | whatever the stream holds, no message exceeds 1 MiB, and what is read besides its payload is within one header budget |
| `FramingShapes.PlainLineIsRead` | orm/mcp/jsonrpc.go:235-250 | blank lines and then a line that declares no length: its text without the carriage returns is the message, if all of it fits the budget, and what follows is left |
| `FramingShapes.FramedIsRead` | orm/mcp/jsonrpc.go:251-273 | a length line, headers and a blank line: exactly the declared number of bytes is the message; refused exactly when the number is not one of 0 to 1 MiB, a header declares a length again, the lines exceed the budget or the body is short |
| `FramingShapes.BlankStreamEnds` | orm/mcp/jsonrpc.go:235-248 | a stream of blank lines within the budget ends cleanly; one that breaks off inside a line is an error |
| `FramingShapes.OpenHeadersAreRefused` | orm/mcp/jsonrpc.go:254-266 | a length whose headers never end is an error |
| `FramingShapes.EveryStreamHasAShape` | orm/mcp/jsonrpc.go:212-273 | every stream is one of these four |

## Left out

- Driver errors are not distinguished beyond what decides a branch (duplicate key, other error, lost reply); catalog queries, `validateLedger` and `validatePlainTable` (orm/command_schema.go) are inputs that may refuse.
- SQL text, quoting and dialect rendering; planned statements are abstract values, and `policyBuilder` is modelled by the conditions it adds.
- `runWrite`'s atomic recipe and its storage probes; `OptimisticRuns` models only begin, statement, count check, commit and rollback. Insert and delete statements on a versioned table are not part of it.
- OperationCompiler.ValidateOperation: the budget of the whole input (`inputBudget`, `updateBudget`) is not repeated here, so more is accepted; the walker it calls is `InputBudget`.
- OperationCompiler.PrepareOperation: the planner's own refusals after compilation (blocked plans, strict table checks) are not modelled, so more is accepted than by the code, and the theorems cover all of it.
- OperationUpdate.PrepareUpdate: likewise for blocked plans and strict row checks.
- OperationCompiler.TypedValidate: column declarations and scalar domains (`parseColumnType`, `validateScalar`) are parameters, which every theorem holds for; the decimal and integer texts are modelled in `Lexeme`.
- Diagnostics, warnings, risk levels, error texts and public views.
- Migration parsing, risk classification and `EnsureExecutable`; capability lists of a plan.
- The observed server version of a schema context, which `canonicalSchema` clears; the two nullability fields of a column are both kept in preflight digests.
- Row scanning, reflection, code generation, command line, files, MCP tools and prompts, EXPLAIN parsing.
- Cursor.ValidateCursorColumns: the checks on the text of a column or raw expression are a parameter, because they are SQL text rules.
- Cursor.PagingVisitsOnce: the result set is given in cursor order and without ties; sorting is the database's.
- Lexeme.DecimalFits: text, precision and scale are below 2^62, as every Go length is; beyond that `int64` arithmetic could wrap.
- Lexeme.ValidNumericId: covers the number branch of `validID`; `ValidId` adds the others. Texts are below 2^62 bytes.
- BindingTheorems.DispatchAuthority: speaks of the last check before the executor call, because the code reads no clock after it; `DispatchInTimeExactly` is the exact condition for the call itself.
- LedgerTheorems.LookupDecides: rows altered by third parties are excluded; for them `CheckRow` states what is refused.
- OptimisticRuns.NoLostUpdate: text equality is taken up to the database's collation, and other conditions have an arbitrary fixed meaning per row.
- OptimisticRuns.StepKeepsInv: a statement that meets a locked row waits; deadlock detection is an abort.
- InputBudget.Size: number texts of `json.Number` are not values of the model; a nil map or list is the null value. Floats are not modelled.
- InputScan.CheckJSON: the decoder is a token stream that may break off; comma and colon rules are the decoder's.
- PreflightRuns.SatisfiedMeans: an observation is one consistent answer per question asked; the collector's queries are not modelled.
