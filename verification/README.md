# Domainry Runtime: a Dafny model of its Action engine and coding runtime

The Runtime executes published Actions. A Business Handler reads, calls connectors and stages records,
intents, jobs and workflow starts; Runtime turns what was staged into one atomic commit and reports the
outcome once. Beside that engine it keeps a startup registry of extensions, a set of codecs at its edges,
and a coding runtime whose tool calls are idempotent. This project models those cores and proves what they
promise, over all inputs, all runs and all reachable states.

| module | models |
|---|---|
| `UnitOfWork` | the phase machine, connector-call leases and the one physical transaction of an execution |
| `ActionExecution` | one Action from end to end: the handler, its check, its commits, its invocation |
| `Invocation` | claim, execution, commit, post-commit work, failure recording and panic recovery of one call |
| `CanonicalCommits` | staging, the commits built from it, batch keys, the planned-relation overlay |
| `ConditionalUpdateMany` | one set update in place of N planned updates, and exact coverage |
| `Capabilities` | identity delivery, account erasure, the completion check, the credential hook |
| `Names`, `Handlers`, `Registry` | handler descriptors, their normal form, registration and freezing |
| `OwnerResolution` | published effects against capabilities in canonical form |
| `RecordFilters` | query validity and filter compilation |
| `HandlerOutput` | the duplicate-rejecting JSON output decoder |
| `LuaJson` | Lua tables to JSON and back, on heaps that may be cyclic |
| `Mqtt` | remaining-length encoding and packet framing, section 2.2.3 of MQTT Version 3.1.1 |
| `OutputBuffer` | the sliding output window of a process |
| `CodingReceipts` | idempotency receipts and hash-guarded file writes |
| `ConcurrentReceipts` | the same calls, interleaved |
| `Basics`, `Text`, `Ordering`, `Records` | options and results, Go's string operations, sorting, record values |

Code that works step by step is imperative here too: classes with the source's fields, loops with the
source's loops. Each such method is proved against a function, and the theorems are about the functions.
Where the outside world decides (the transaction store, Identity, the file system, map iteration order, a
handler's behaviour), the decision is a parameter or a free choice, so a theorem holds for every answer.

Places where the code does less than one might assume, each with its exact condition:

- A store that lands the data and then fails to read the receipt back leaves a rolled back unit with landed
  data (`UnitOfWork.LandedUnlessCommitted`; concretely `UnitOfWork.RolledBackMayHaveLanded`).
- A commit the store refuses before touching its handle leaves that transaction open: the commit error path
  alone does not roll back (`Invocation.TransactionsClosedExactly`; concretely
  `Invocation.RefusedLeavesOpen`).
- A panic in the post-commit hook or in workflow activation reports an error, and records a failure, for data
  that are committed (`Invocation.CommittedYetFailedExactly`; concretely `Invocation.PanickingHookFailsCommitted`).
- A profile stays planned when the identity backend cannot be bound afterwards
  (`Capabilities.PlannedProfilesDeliveredExactly`; concretely
  `Capabilities.ProfilePlannedWithoutDelivery`), and an erasure may be followed by a delivery, though not preceded by
  one (`Capabilities.DeliveryIgnoresErasure`, `Capabilities.NoErasureAfterDelivery`).
- A null inside a list or object is lost on the way through Lua, and an empty object comes back as an empty list
  (`LuaJson.RoundTrip`; concretely `LuaJson.NullDropped`, `LuaJson.EmptyObjectBecomesList`).
- A negative byte count or one so great that adding it overflows makes an output read panic
  (`OutputBuffer.ReadIsHistory`; concretely `OutputBuffer.NegativeCountPanics`, `OutputBuffer.OverflowingCountPanics`).
- The item budget of the Lua conversion does not bound its result: a sparse table is padded with nulls that are not
  counted (`LuaJson.SizeExactly`; concretely `LuaJson.SparseTable`).
- Calls with one idempotency key that overlap may both run, and a refused retry may store its refusal over the
  completed receipt (`ConcurrentReceipts.ReplayTrueByScheduleExactly`; concretely
  `ConcurrentReceipts.CreatedYetConflict`). The version guard still keeps retries of one write from writing twice (`ConcurrentReceipts.RetriesWriteOnce`).
- A set update stamps every record with the first member's time and author, whatever the own plans say
  (`ConditionalUpdateMany.StampsAgreeExactly`; concretely `ConditionalUpdateMany.DifferentTimesAccepted`).
- An edit may be accepted although its text occurs twice, if the occurrences overlap (`CodingReceipts.SingleEdit`;
  concretely `CodingReceipts.OverlappingEditAccepted`).
- An intent that names the text of another's position takes its identity (`CanonicalCommits.DedupKeysCoincideExactly`;
  concretely `CanonicalCommits.NamedKeyTakesPosition`), and a withdrawal is staged twice if the port answers for
  another process (`CanonicalCommits.WithdrawTwiceExactly`; concretely `CanonicalCommits.OtherProcessStagedTwice`).
  The workflow service behind that port looks the process up by the id requested and checks its binding, so it
  never does.
- A system action without an object resolves once and is refused when its derived effects are resolved again. So
  would one whose operation is not a write, but the catalog reports such an operation as a validation error
  (`OwnerResolution.SystemResolvingAgainExactly`; concretely `OwnerResolution.SystemRefusedSecondTime`).
- File capabilities are compared by length and inclusion, which is set equality only because registered
  descriptors repeat nothing (`OwnerResolution.FilesMatchExactly`, `OwnerResolution.RepeatedFileNameMatches`).

`dafny verify dfyconfig.toml` checks the whole project.

## Model

| member | source | states |
|---|---|---|
| `UnitOfWork.InvariantStep` | `runtime/application/action/action_unit_of_work.go:53-229` | every mutex-held region keeps the invariant: the counter equals the unreleased leases, an active lease means no open transaction and a phase of prewrite or rolled back, an open handle is the current one, at most one handle lands, and a commit in doubt leaves nothing open or landed beside it |
| `UnitOfWork.InvariantAlways` | `runtime/application/action/action_unit_of_work.go:53-229` | the invariant holds in every state reachable by any interleaving of the steps, repeated releases and the two steps of commit included |
| `UnitOfWork.PhasesMoveForward` | `runtime/application/action/action_execution_phase.go:46-67` | over every run terminal phases absorb and prewrite is never entered again |
| `UnitOfWork.LeaseOnlyInPrewrite` | `runtime/application/action/action_unit_of_work.go:189-205` | a lease is granted exactly in prewrite, and never again once the phase has left it |
| `UnitOfWork.SuccessfulCommitLands` | `runtime/application/action/action_unit_of_work.go:115-137` | a commit reports success exactly when no lease is out, the handle is open, the phase is writing and the store accepts; the data then landed in that step |
| `UnitOfWork.CommitOnce` | `runtime/application/action/action_unit_of_work.go:115-137` | no run reports two successful commits, and no run lands two handles |
| `UnitOfWork.RolledBackMayHaveLanded` | `runtime/infrastructure/persistence/database/action/action_business_execution_store.go:209-300` | the converse is false: a concrete run leaves landed data in a unit that says rolled back |
| `UnitOfWork.LandedUnlessCommitted` | `runtime/application/action/action_unit_of_work.go:130-136` | landed data sit in a unit not marked committed exactly when some commit found an open handle and the store failed after landing it, or accepted it after the phase had been rolled back |
| `UnitOfWork.TraceAlways` | `runtime/application/action/action_unit_of_work.go:139-205` | in every run each external call starts and ends before the first write is admitted, deferred ones included, and before the first transaction begins |
| `UnitOfWork.BegunClosesCalls` | `runtime/application/action/action_unit_of_work.go:139-205` | once any begin, physical or deferred, has let a caller write, no later call out is granted |
| `UnitOfWork.EndedForGood` | `runtime/application/action/action_unit_of_work.go:115-229` | a rollback, a failed begin, a failed commit and a successful commit each end the unit: over every run the phase stays what it became, and every later call, begin and commit fails |
| `UnitOfWork.RolledBackNeverLands` | `runtime/application/action/action_unit_of_work.go:219-229` | over every run, after a rollback the open handle is undone, every other keeps its fate, and nothing lands later |
| `UnitOfWork.InDoubtForGood` | `runtime/application/action/action_unit_of_work.go:130-136` | a commit of unknown outcome leaves the phase alone; over every run its handle stays in doubt, nothing lands beside it, and no later commit succeeds |
| `UnitOfWork.AnswersExactly` | `runtime/application/action/action_unit_of_work.go:115-229` | every answer of every step by a condition on the state and the store's word, and which refusals change nothing |
| `UnitOfWork.HandleLifecycle` | `runtime/application/action/action_unit_of_work.go:115-229` | a handle is opened only by a begin that finds none, open exactly when the begin answers done, and changes only while open and current, by a rollback or by what the store answered |
| `UnitOfWork.CommitExactly` | `runtime/application/action/action_unit_of_work.go:115-137` | commit as one caller runs it succeeds, fails to begin or is in doubt exactly under these conditions on the state |
| `UnitOfWork.RequestIdsDistinct` | `runtime/application/action/action_unit_of_work.go:199-204` | the connector request identities of one execution are pairwise distinct |
| `UnitOfWork.RequestIdExample` | `runtime/application/action/action_unit_of_work.go:199-204` | the form of such an identity, concretely |
| `UnitOfWork.PhaseMachine.Transition` | `runtime/application/action/action_execution_phase.go:46-67` | the phase machine, against the transition function the run theorems are about |
| `UnitOfWork.ConnectorCallLease.Release` | `runtime/application/action/action_unit_of_work.go:53-67` | releasing is one step of the machine, the second and later releases of a lease change nothing |
| `UnitOfWork.ActionUnitOfWork.AcquireSynchronousConnectorCall` | `runtime/application/action/action_unit_of_work.go:189-205` | the acquire step, with a fresh lease numbered by the calls issued so far |
| `UnitOfWork.ActionUnitOfWork.BeginWriting` | `runtime/application/action/action_unit_of_work.go:139-162` | the begin step, including the transaction that stays set after a begin in a terminal phase |
| `UnitOfWork.ActionUnitOfWork.BeginDeferredWriting` | `runtime/application/action/action_unit_of_work.go:171-187` | the deferred begin step: the connector window closes without a physical transaction |
| `UnitOfWork.ActionUnitOfWork.CommitLocked` | `runtime/application/action/action_unit_of_work.go:124-136` | the locked part of commit as one step |
| `UnitOfWork.ActionUnitOfWork.Commit` | `runtime/application/action/action_unit_of_work.go:115-137` | commit as one caller runs it: lazy begin, then the locked part; success means the phase is committed and a handle landed |
| `UnitOfWork.ActionUnitOfWork.RollBack` | `runtime/application/action/action_unit_of_work.go:219-229` | the rollback step, allowed while leases are out |
| `Invocation.EveryInvocation` | `runtime/application/action/action_application_service.go:158-309` | on every invocation the hook and workflow activation only follow a successful commit; once a commit returned an unknown outcome nothing more happens, nothing is recorded or rolled back and the answer says so; any other error after the claim without a panic is recorded exactly once; a panic always answers with an error after a rollback |
| `Invocation.SuccessMeansCommitted` | `runtime/application/action/action_application_service.go:296-309` | a nil error without replay means the commit returned nil, the data landed, the hook ran after it, and exactly the starts of the commits were activated in order |
| `Invocation.CommittedYetFailedExactly` | `runtime/application/action/action_application_service.go:169-182` | committed data go with an error exactly when the commit reports success and the hook or the activation panics after it |
| `Invocation.PanickingHookFailsCommitted` | `runtime/application/action/action_application_service.go:169-182` | such an invocation, concretely |
| `Invocation.SucceedsExactly` | `runtime/application/action/action_application_service.go:158-309` | an invocation succeeds exactly when every stage before the commit passes, the commit reports success, and nothing panics after it |
| `Invocation.AnsweredExactly` | `runtime/application/action/action_application_service.go:158-309` | every invocation: a replay is answered exactly when the claim finds one, and nothing is done then; success exactly when every stage passes, with the exact log; otherwise some first stage stops it |
| `Invocation.StoppedExactly` | `runtime/application/action/action_application_service.go:158-309` | whose error the caller gets and what was done by then, for each stage that can stop it: before the claim the stage's own; after it the stage's own is recorded and the error of recording replaces it, an unknown commit is neither recorded nor replaced, and a panic is answered by the recovery |
| `Invocation.StoppedRolledBack` | `runtime/application/action/action_application_service.go:249-295` | stopped between claim and commit, the unit of work ends rolled back with nothing landed and nothing open |
| `Invocation.TransactionsClosedExactly` | `runtime/application/action/action_application_service.go:300-303` | after any invocation a physical transaction is still open exactly when every stage before the commit passes, the store refuses the commit before it touches the open handle, and the recording of that failure does not panic: the one failure path without rollback |
| `Invocation.RefusedLeavesOpen` | `runtime/application/action/action_application_service.go:300-303` | such an invocation, concretely |
| `Invocation.FailOwnedInvocation` | `runtime/application/action/action_result_projection.go:56-65` | recording a failure: never for an unknown commit, otherwise once, and an error of the recording replaces the answer |
| `Invocation.CollectStarts` | `runtime/application/action/action_application_service.go:336-349` | the nested loops gather the starts of all commits in order |
| `Invocation.RunHandler` | `runtime/application/action/action_application_service.go:249-251` | any sequence of acquire, release, begin and deferred begin, run against the unit of work object |
| `Invocation.InvokeOwned` | `runtime/application/action/action_application_service.go:249-309` | everything after the claim, branch by branch, against its function |
| `Invocation.Invoke` | `runtime/application/action/action_application_service.go:158-309` | the whole call with its deferred recovery, against the function the theorems are about |
| `ActionExecution.SuccessEndToEnd` | `runtime/application/action/action_executor.go:149-200` | a successful invocation committed exactly what the handler staged, the mutations one for one and in order and every side effect with them, from an output that is one JSON object with no repeated name, after every capability call had come back sound, and activated exactly the starts staged and planned |
| `ActionExecution.CompletesExactly` | `runtime/application/action/action_executor.go:173-200` | an answer is completed exactly when it is one object with no repeated name, the capabilities are complete, the target is valid, no side effect lacks a mutation and the record check passes; otherwise the fault is that of the first that fails; the result is the decoded output |
| `ActionExecution.LiftInjective` | `runtime/application/action/action_handler_output.go:11-25` | reading the decoded output into record values loses nothing |
| `ActionExecution.CredentialReturnedOnce` | `runtime/application/action/action_executor.go:177-200` | whatever the output projection did, the caller gets the receipt and beside it the credential alone, in its granted field, which the handler's own output left free; a value of the receipt is lost exactly when the projection put another into that field |
| `ActionExecution.PasswordOnlyReturned` | `runtime/application/action/action_executor.go:149-200` | with every password blotted out the handler is told the same, the same is committed, the invocation takes the same steps and the receipt is the same |
| `ActionExecution.CompleteExecution` | `runtime/application/action/action_executor.go:173-200` | decoding, completion check and canonical commits behind the handler, against the function the theorems are about |
| `CanonicalCommits.BuildCommits` | `runtime/application/action/action_executor_mutation.go:90-140` | commits are plans, set commits and jobs in staging order; only the last gains attachments; a side effect without a business mutation is rejected, and nothing else is, with the error of the first kind of side effect staged |
| `CanonicalCommits.MessagesConserved` | `runtime/application/action/action_executor_mutation.go:108-134` | over all commits every staged intent, notification and audit appears exactly once, in staging order, behind what the commits carried themselves |
| `CanonicalCommits.WorkflowsConserved` | `runtime/application/action/action_workflow_start_execution.go:90-99` | the same for workflow starts and withdrawals |
| `CanonicalCommits.CanonicalConserves` | `runtime/application/action/action_executor_mutation.go:90-140` | of the commits as built, an empty run included: the staged mutations one for one, in order and unchanged, all but the last without any addition; each intent as one message, in order, that holds its identity, connector, connection, operation, payload and contract; each notification as it is and with one audit that names its subject; every start and withdrawal exactly once |
| `CanonicalCommits.EntryKeyInjective` | `pkg/runtimeext/intent.go:50-57` | the length-prefixed key tells all pairs of strings apart, delimiters and digits inside them included |
| `CanonicalCommits.BatchEntryKeyExact` | `pkg/runtimeext/intent.go:50-57` | two payloads share a key exactly when neither has one or both name the same batch and entry |
| `CanonicalCommits.BatchEntryKeySpelled` | `pkg/runtimeext/intent.go:50-57` | the key in full, and that a payload without batch or entry has none |
| `CanonicalCommits.FallbackKeysDistinct` | `runtime/application/action/action_executor_mutation.go:114-116` | the identities given by position are pairwise distinct |
| `CanonicalCommits.DedupKeysCoincideExactly` | `runtime/application/action/action_executor_mutation.go:109-116` | two intents of any origin get the same identity exactly when they name the same one, or one names the text that stands for the position of the other |
| `CanonicalCommits.NamedKeyTakesPosition` | `runtime/application/action/action_executor_mutation.go:109-116` | the second case, concretely |
| `CanonicalCommits.Session.StageDurableIntent` | `runtime/application/action/action_executor_mutation.go:59-79` | an intent that is well formed, granted for sending after the commit and accepted by the catalog is appended under the identity of its position; any other changes nothing and gets its error |
| `CanonicalCommits.IntentFaultExactly` | `runtime/application/action/action_executor_mutation.go:59-79` | an intent is refused for the first of: malformed, not granted, granted for a call or a read, not accepted; with that error |
| `CanonicalCommits.GrantForExactly` | `runtime/application/action/action_executor_mutation.go:81-88` | the grant that decides is the first that names connector, connection, operation and contract of the intent |
| `CanonicalCommits.DurableIntentGrant` | `runtime/application/action/action_executor_mutation.go:81-88` | the first matching grant, by the loop |
| `CanonicalCommits.IntentIdsDistinct` | `runtime/application/action/action_executor_mutation.go:74-78` | staged intents of one execution have pairwise distinct identities |
| `CanonicalCommits.Session.StageWorkflowWithdrawal` | `runtime/application/action/action_workflow_withdrawal_execution.go:14-40` | the whole call, against the function the next two rows are about |
| `CanonicalCommits.WithdrawExactly` | `runtime/application/action/action_workflow_withdrawal_execution.go:14-40` | a withdrawal needs a grant naming the workflow and the operation, and a unit that has not ended; a process not staged yet is staged as the backend answers and its receipt is that answer's; otherwise nothing changes |
| `CanonicalCommits.WithdrawTwiceExactly` | `runtime/application/action/action_workflow_withdrawal_execution.go:26-40` | repeating a request stages nothing and repeats the answer exactly when the backend answered for the process and binding asked for; it stages twice exactly when it named another process |
| `CanonicalCommits.OtherProcessStagedTwice` | `runtime/application/action/action_workflow_withdrawal_execution.go:26-40` | the second case, concretely |
| `CanonicalCommits.WithdrawnOnce` | `runtime/application/action/action_workflow_withdrawal_execution.go:26-40` | over every sequence of calls a backend that answers for the process asked about has each process withdrawn at most once |
| `CanonicalCommits.PlannedRelationRecords` | `runtime/application/action/action_executor_mutation.go:261-295` | the overlay shows a record exactly when the last plan for it is not a delete, with that plan's contents, for every plan list |
| `CanonicalCommits.PlannedIdentityExactly` | `runtime/application/action/action_executor_mutation.go:261-295` | a plan concerns the record its own record names, or if that names none the one its commit names |
| `ConditionalUpdateMany.ChangedRecordFields` | `runtime/application/action/action_conditional_update_many_execution.go:246-254` | the patch is exactly the schema fields that differ, with their new values |
| `ConditionalUpdateMany.ChangedExactly` | `runtime/application/action/action_conditional_update_many_execution.go:246-254` | a field is in the patch exactly when the schema has it and the plan changes it |
| `ConditionalUpdateMany.OverlayIsPlan` | `runtime/application/action/action_conditional_update_many_execution.go:246-254` | overlaying the patch gives the planned record on every schema field and touches nothing else |
| `ConditionalUpdateMany.PlanConditionalUpdateMany` | `runtime/application/action/action_conditional_update_many_execution.go:97-155` | planning succeeds exactly when no record raises an error, otherwise reports the first; the ids are the locked ids sorted and duplicate free, every member's side effects are concatenated in order, and schema, lead record, owner, scope and stamps are the first member's |
| `ConditionalUpdateMany.UniformExactly` | `runtime/application/action/action_conditional_update_many_execution.go:97-155` | planning succeeds exactly when every record is named, distinct and planned as a plain update of itself, all plans change the same fields to the same values and at least one, and all records have one owner and one scope |
| `ConditionalUpdateMany.CheckExactly` | `runtime/application/action/action_conditional_update_many_execution.go:97-155` | which of these a record fails decides its error |
| `ConditionalUpdateMany.MemberAuditsExactly` | `runtime/application/action/action_conditional_update_many_execution.go:128-146` | a member's own audit comes before its further ones |
| `ConditionalUpdateMany.SetUpdateMeansEachUpdate` | `runtime/application/action/action_conditional_update_many_execution.go:97-155` | the one set update leaves the store as the N planned updates would: same ids, nothing outside the set, every schema field as its own plan |
| `ConditionalUpdateMany.StampsAgreeExactly` | `runtime/application/action/action_conditional_update_many_execution.go:128-146` | who updated and when: the stamps the set commit leaves are those of the N own plans exactly when all members carry the stamp of the first |
| `ConditionalUpdateMany.DifferentTimesAccepted` | `runtime/application/action/action_conditional_update_many_execution.go:124-127` | planning accepts members with different stamps, concretely |
| `ConditionalUpdateMany.NormalizeCoverage` | `runtime/application/action/action_conditional_update_many_execution.go:157-177` | normalisation accepts exactly a known field, the expected count and distinct defined keys, and keeps the keys |
| `ConditionalUpdateMany.ValidateExactCoverage` | `runtime/application/action/action_conditional_update_many_execution.go:179-212` | validation accepts exactly the record sets whose keys are the expected keys, each met once |
| `ConditionalUpdateMany.NormalizedFieldStable` | `runtime/application/action/action_conditional_update_many_execution.go:214-225` | validation looks the coverage up under the field the request named |
| `ConditionalUpdateMany.CheckCoverage` | `runtime/application/action/action_conditional_update_many_execution.go:157-212` | normalise and validate together, in terms of the raw request |
| `ConditionalUpdateMany.CoverageFieldExactly` | `runtime/application/action/action_conditional_update_many_execution.go:214-225` | the field coverage is about is the built-in identity or the first of the schema under that name |
| `ConditionalUpdateMany.RecordKeyExactly` | `runtime/application/action/action_conditional_update_many_execution.go:179-244` | the key of a record is that of its identity as text or of its normalised field; a null or blank has none |
| `ConditionalUpdateMany.ValueKeyExactly` | `runtime/application/action/action_conditional_update_many_execution.go:157-177` | the key of an expected value likewise |
| `ConditionalUpdateMany.OneToOne` | `runtime/application/action/action_conditional_update_many_execution.go:179-212` | accepted coverage is a one-to-one correspondence between expected values and locked records |
| `Capabilities.CompletionExactly` | `runtime/application/action/action_identity_handler_delivery_execution.go:407-434` | for every sequence of calls, errors swallowed or not: at most one delivery and at most one erasure, the erasure first; the completion check passes exactly when every backend call came back sound, every queued erasure with the disabling of its subject, and grants and credential field are in order |
| `Capabilities.EverySentForItsCall` | `runtime/application/action/action_identity_handler_delivery_execution.go:92-157` | over every run, whatever reached Identity or Lifecycle was sent for one call that met every condition when it was made: a create for the fresh user and every other operation for the user the locked profile is bound to, in the resolved organization, naming the profile, with name, details, versions, roles and keys as asked; an erasure approved for and disabling the user the profile is bound to |
| `Capabilities.PreparedExactly` | `runtime/application/action/action_identity_handler_delivery_execution.go:21-133` | a delivery is prepared exactly when all seventeen conditions are met, and otherwise refused with the error of the first that is not |
| `Capabilities.PreparedSends` | `runtime/application/action/action_identity_handler_delivery_execution.go:134-157` | what is sent for a prepared delivery, field by field |
| `Capabilities.BindingGrantedExactly` | `runtime/application/action/action_identity_handler_delivery_execution.go:325-332` | a binding is granted exactly when some entry of the grant names it |
| `Capabilities.ErasePreparedExactly` | `runtime/application/action/action_account_erasure_execution.go:57-107` | an erasure is staged exactly when all fourteen conditions are met, among them that the approval names the profile and was requested by the user the profile is bound to, who does not run the Action; otherwise the error is that of the first that is not |
| `Capabilities.EraseAccepted` | `runtime/application/action/action_account_erasure_execution.go:91-107` | the user to erase is the one the locked profile is bound to |
| `Capabilities.FaultExactly` | `runtime/application/action/action_identity_handler_delivery_execution.go:158-178` | an answer is sound exactly when it names the user, organization and profile asked for and a credential only where one is due; which fault it has otherwise |
| `Capabilities.DeliveryTold` | `runtime/application/action/action_identity_handler_delivery_execution.go:134-181` | the handler is told the answer without its credential |
| `Capabilities.ErasureTold` | `runtime/application/action/action_account_erasure_execution.go:115-133` | the handler is told the receipt of the queue, or which of the two calls failed |
| `Capabilities.CompletionRefusals` | `runtime/application/action/action_identity_handler_delivery_execution.go:407-434` | what the completion check objects to |
| `Capabilities.PlannedForNewUser` | `runtime/application/action/action_identity_handler_delivery_execution.go:114-133` | over every run each planned profile is the fresh one of its object, for the fresh user |
| `Capabilities.CredentialOnlyForNewUser` | `runtime/application/action/action_identity_handler_delivery_execution.go:168-178` | a credential is held only for a password user created over HTTP |
| `Capabilities.NoErasureAfterDelivery` | `runtime/application/action/action_account_erasure_execution.go:61-63` | staging an erasure after a counted delivery is refused and changes nothing |
| `Capabilities.DeliveryIgnoresErasure` | `runtime/application/action/action_identity_handler_delivery_execution.go:25-27` | the reverse order is not refused |
| `Capabilities.ProfilePlannedWithoutDelivery` | `runtime/application/action/action_identity_handler_delivery_execution.go:114-133` | concretely: two calls that cannot bind the backend leave two planned profiles and no delivery, and the completion check passes |
| `Capabilities.PlannedProfilesDeliveredExactly` | `runtime/application/action/action_identity_handler_delivery_execution.go:114-133` | over every run each planned profile has a delivery for its user and profile exactly when no call planned one, failed to bind the backend and was not made good by a later delivery |
| `Capabilities.BindingAlwaysDelivers` | `runtime/application/action/action_identity_handler_delivery_execution.go:114-133` | in particular when every call binds the backend it reaches |
| `Capabilities.CredentialInvisible` | `runtime/application/action/action_identity_handler_delivery_execution.go:495-507` | no reply of any run depends on a password: the hook alone can put the credential into the result |
| `Capabilities.CredentialHandedOutOnce` | `runtime/application/action/action_identity_handler_delivery_execution.go:436-464` | after a passed check the hook adds the credential to the granted field and nothing else, marks the result, and never does so twice; it replaces a value of the result exactly when the field is occupied there, which it is not where the result carries the checked output |
| `Capabilities.CredentialShown` | `runtime/application/action/action_identity_handler_delivery_execution.go:436-464` | the credential as the caller sees it: the password and whether it must be changed |
| `Capabilities.CapabilitySession.DeliverIdentity` | `runtime/application/action/action_identity_handler_delivery_execution.go:21-181` | the delivery in its order of checks, profile plan, counted call and answer checks, against its function |
| `Capabilities.CapabilitySession.StageAccountErasure` | `runtime/application/action/action_account_erasure_execution.go:57-133` | the erasure likewise: counted before queue and disable |
| `Capabilities.CapabilitySession.ValidateCapabilityCompletion` | `runtime/application/action/action_identity_handler_delivery_execution.go:407-434` | the completion check, against the function CompletionExactly is about |
| `Capabilities.CapabilitySession.AfterCommit` | `runtime/application/action/action_identity_handler_delivery_execution.go:436-464` | the post-commit hook, against the function CredentialHandedOutOnce is about |
| `HandlerOutput.DecodeExactly` | `runtime/application/action/action_handler_output.go:11-75` | the decoder returns a tree exactly on the token streams of one object, nothing after it, no name repeated at any depth, and the tree is the meaning of those tokens |
| `HandlerOutput.RepeatsRejected` | `runtime/application/action/action_handler_output.go:40-50` | a document that repeats a name anywhere is rejected, and an object for that reason |
| `HandlerOutput.OtherRejections` | `runtime/application/action/action_handler_output.go:11-25` | no input, a document that is no object, and anything behind an object each get their error |
| `HandlerOutput.Tokenizer.ConsumeValue` | `runtime/application/action/action_handler_output.go:27-75` | one recursive descent step consumes exactly what the grammar function says |
| `HandlerOutput.DecodeBusinessHandlerOutput` | `runtime/application/action/action_handler_output.go:11-25` | the stateful decoder agrees with the function DecodeExactly is about |
| `LuaJson.CyclesRejected` | `pkg/coderuntime/worker.go:195-214` | every cycle reachable from the value is rejected, on every heap |
| `LuaJson.SelfReference` | `pkg/coderuntime/worker.go:195-214` | the error of a table that refers to itself |
| `LuaJson.PathsAreSimple` | `pkg/coderuntime/worker.go:195-258` | a converted value has no path that meets a table twice or exceeds the depth limit |
| `LuaJson.MixedTablesRejected` | `pkg/coderuntime/worker.go:228-254` | a table with positional and other keys never converts |
| `LuaJson.TableContents` | `pkg/coderuntime/worker.go:215-258` | on every heap, in whatever order entries come: a list holds at each position what the entry there converts to and null where there is none, and is as long as the table; an object holds under each name what its entry converts to, and nothing else |
| `LuaJson.ConvertRepresented` | `pkg/coderuntime/worker.go:195-258` | converting a table tree succeeds exactly when it fits depth and item limits, and gives its value back up to empty objects; otherwise the error is the limit |
| `LuaJson.SizeExactly` | `pkg/coderuntime/worker.go:195-258` | a conversion that succeeds counts at most 10001 items, and its result has exactly as many nodes as it counted and its positional tables are padded; it exceeds 10001 exactly when the padding makes up for it |
| `LuaJson.SparseTable` | `pkg/coderuntime/worker.go:228-236` | one entry at position n counts two items and gives n + 1 nodes, for every n |
| `LuaJson.RoundTrip` | `pkg/coderuntime/worker.go:195-296` | a value comes back unchanged exactly when it has no empty object, no null inside, at most 32 levels and at most 10001 nodes |
| `LuaJson.ThereAndBack` | `pkg/coderuntime/worker.go:195-296` | both conversions run one after the other, for every value: an error outside the limits, otherwise the value without its inner nulls and with empty lists for empty objects |
| `LuaJson.NullDropped` | `pkg/coderuntime/worker.go:273-290` | a list or object holding only a null comes back as an empty list |
| `LuaJson.EmptyObjectBecomesList` | `pkg/coderuntime/worker.go:282-290` | an empty object comes back as an empty list |
| `LuaJson.LuaState.JsonToLua` | `pkg/coderuntime/worker.go:260-296` | succeeds exactly within 32 levels, leaves existing tables alone, and builds a table tree for the value without its inner nulls |
| `LuaJson.Conversion.LuaToJson` | `pkg/coderuntime/worker.go:195-258` | the walk with its mutable visiting set and shared counter, against the function the theorems are about; the visiting set is restored |
| `Mqtt.EncodeRemaining` | `pkg/runtimehost/connector_mqtt_transport.go:228-240` | the encoding loop, against the recursive encoding |
| `Mqtt.EncodeMeaning` | `pkg/runtimehost/connector_mqtt_transport.go:228-240` | the encoding is a well marked run of base-128 digits denoting the length |
| `Mqtt.DecodeMeaning` | `pkg/runtimehost/connector_mqtt_transport.go:242-255` | decoding accepts exactly the well marked runs of at most four digits and reads the number they denote |
| `Mqtt.DecodeRefusals` | `pkg/runtimehost/connector_mqtt_transport.go:242-255` | a length is unfinished exactly when the stream ends first and invalid exactly when four bytes all say that another follows |
| `Mqtt.RemainingLengthRoundTrip` | `pkg/runtimehost/connector_mqtt_transport.go:228-255` | every length below 128^4 comes back and exactly its bytes are consumed, whatever follows; every larger one is rejected |
| `Mqtt.EncodeShortest` | `pkg/runtimehost/connector_mqtt_transport.go:228-240` | no accepted spelling of a length is shorter |
| `Mqtt.PacketRoundTrip` | `pkg/runtimehost/connector_mqtt_transport.go:193-218` | a packet is read back intact exactly when its body is at most 4 MiB |
| `Mqtt.CutPacket` | `pkg/runtimehost/connector_mqtt_transport.go:202-218` | a packet cut short anywhere is refused and never read as another |
| `Mqtt.StreamRoundTrip` | `pkg/runtimehost/connector_mqtt_transport.go:193-218` | a stream of packets comes back as the same packets in order |
| `Mqtt.Client.DecodeRemaining` | `pkg/runtimehost/connector_mqtt_transport.go:242-255` | the decoding loop over the reader, against the recursive decoding |
| `Mqtt.Client.WritePacket` | `pkg/runtimehost/connector_mqtt_transport.go:193-200` | what is sent is the frame, or nothing when cancelled |
| `Mqtt.Client.ReadPacket` | `pkg/runtimehost/connector_mqtt_transport.go:202-218` | what is read is the packet at the head of the stream |
| `OutputBuffer.WriteKeepsWindow` | `pkg/codingruntime/runtime.go:69-81` | the buffer always holds exactly the last at most 2 MiB of the history |
| `OutputBuffer.WindowSize` | `pkg/codingruntime/runtime.go:69-81` | the size of the window in bytes |
| `OutputBuffer.ReadIsHistory` | `pkg/codingruntime/runtime.go:83-96` | a read is refused exactly when its cursor is outside the window, panics exactly when inside it the byte count is negative or overflows 64 bits when added to the cursor's place, and otherwise returns that stretch of the history |
| `OutputBuffer.ChainReproducesStream` | `pkg/codingruntime/runtime.go:63-96` | chained reads across any interleaved writes reproduce the stream with no gap and no repeat until a read fails |
| `OutputBuffer.ChainLostExactlyWhen` | `pkg/codingruntime/runtime.go:83-96` | a chain fails exactly when its cursor has slid out of the window, or the byte count is negative or overflows |
| `OutputBuffer.NegativeCountPanics` | `pkg/codingruntime/runtime.go:93-95` | the first kind of panic, concretely |
| `OutputBuffer.OverflowingCountPanics` | `pkg/codingruntime/runtime.go:93-95` | the second kind, concretely |
| `OutputBuffer.ServedReadProgresses` | `pkg/codingruntime/process.go:181-203` | a served read of the process tools short of the end returns at least one byte, and as many as asked for, 32768 if none were, or as there are |
| `OutputBuffer.BoundedBuffer.Write` | `pkg/codingruntime/runtime.go:69-81` | the write, tied to the history |
| `OutputBuffer.BoundedBuffer.Read` | `pkg/codingruntime/runtime.go:83-96` | the read with its 64-bit addition, tied to the history |
| `CodingReceipts.AtMostOnce` | `pkg/codingruntime/runtime.go:169-222` | in every sequential run, files rewritten elsewhere included, each scope and non-empty key puts a file in place at most once between closes of the scope |
| `CodingReceipts.ReplayReturnsStored` | `pkg/codingruntime/runtime.go:176-183` | after an answer that is not uncertain every later call under that scope and key gets it and changes nothing, whatever it asks |
| `CodingReceipts.RejectedExactly` | `pkg/codingruntime/runtime.go:149-175` | a scope with a part that is blank or holds NUL or a line break, an unknown tool and arguments that are no JSON are turned away with their error and change nothing |
| `CodingReceipts.ServedFresh` | `pkg/codingruntime/runtime.go:183-222` | without a receipt the tool runs and its answer is kept exactly when there is a key and the answer is certain; asked to reconcile, another tool is uncertain |
| `CodingReceipts.OnlyCompletedWrites` | `pkg/codingruntime/files.go:126-217` | files change only with a completed answer: never with an error or an uncertain one |
| `CodingReceipts.CloseExactly` | `pkg/codingruntime/runtime.go:225-238` | closing forgets exactly the receipts of the scope |
| `CodingReceipts.PrefixExactly` | `pkg/codingruntime/runtime.go:233-237` | a receipt has the prefix of a scope exactly when it was issued under its digest |
| `CodingReceipts.ReceiptKeyInjective` | `pkg/codingruntime/runtime.go:178-178` | receipt keys determine the scope digest and the idempotency key |
| `CodingReceipts.ScopeTextInjective` | `pkg/codingruntime/runtime.go:149-158` | valid scopes are hashed from the same text only if they are equal |
| `CodingReceipts.ScopeTextSpelled` | `pkg/codingruntime/runtime.go:149-158` | the text a scope is hashed from, in full |
| `CodingReceipts.WroteExactly` | `pkg/codingruntime/files.go:158-217` | a write that took place replaced the version it named, left the content given or the edited text, changed one path, stayed within 1048576 bytes, and its answer describes the new text |
| `CodingReceipts.WritesExactly` | `pkg/codingruntime/files.go:126-217` | a write puts its file in place exactly when its arguments decode, its path is clean, its file is readable and does not already hold the text to reconcile, the version is the one named, the text to edit is found once or replaced everywhere, the result fits and it is stored |
| `CodingReceipts.StoppedExactly` | `pkg/codingruntime/files.go:126-217` | the first of these that fails decides the answer, and nothing changes |
| `CodingReceipts.VersionChain` | `pkg/codingruntime/files.go:158-217` | over every run in which only these tools touch the workspace, the changes reported for a file are its gap-free version history |
| `CodingReceipts.StaleWriteRefused` | `pkg/codingruntime/files.go:158-170` | no lost update: a write naming an older version is refused and changes nothing |
| `CodingReceipts.LostWriteReconciles` | `pkg/codingruntime/files.go:154-157` | retrying a write whose receipt was lost repeats its answer and writes nothing |
| `CodingReceipts.LostEditStaysUncertain` | `pkg/codingruntime/files.go:158-170` | the retry of a lost edit is uncertain, and writes nothing, exactly unless the edit left a text with the digest it started from |
| `CodingReceipts.SingleEdit` | `pkg/codingruntime/files.go:172-182` | an edit without replace-all rewrites the first occurrence and keeps everything around it; its text, counted once, occurs nowhere else exactly when no second occurrence overlaps the first |
| `CodingReceipts.OverlappingEditAccepted` | `pkg/codingruntime/files.go:172-176` | an edit accepted although its text occurs twice, concretely |
| `CodingReceipts.EveryEdit` | `pkg/codingruntime/files.go:177-181` | an edit with replace-all keeps the pieces between the occurrences, none of which holds another, and exchanges what stands between them |
| `CodingReceipts.CodingRuntime.FileWriteTool` | `pkg/codingruntime/files.go:126-217` | the file tool step by step, against its function |
| `CodingReceipts.CodingRuntime.ExecuteConversationCoding` | `pkg/codingruntime/runtime.go:169-222` | the call around it: receipt look-up, tool, receipt store |
| `CodingReceipts.CodingRuntime.CloseConversationCodingScope` | `pkg/codingruntime/runtime.go:225-238` | the deletion by prefix, in any order of the map |
| `ConcurrentReceipts.UninterruptedIsSequential` | `pkg/codingruntime/runtime.go:176-222` | a call whose three critical sections are not interrupted is the sequential call |
| `ConcurrentReceipts.RetriesWriteOnce` | `pkg/codingruntime/runtime.go:176-222` | however many retries of one write or edit run at once and however their critical sections interleave, at most one puts the file in place, if the write changes the digest |
| `ConcurrentReceipts.SameVersionWritesTwice` | `pkg/codingruntime/files.go:158-170` | otherwise two may |
| `ConcurrentReceipts.ReplayTrueExactly` | `pkg/codingruntime/runtime.go:217-221` | what a later call is told is the answer of the retry that stored last, and it is the completed one exactly when the retry that put the file in place stored last |
| `ConcurrentReceipts.ReplayTrueByScheduleExactly` | `pkg/codingruntime/runtime.go:176-222` | for retries of a write that nothing stands in the way of, the schedule alone decides it: the replay is true exactly when the retry that ran its tool first also stored last |
| `ConcurrentReceipts.OverlapRunsBoth` | `pkg/codingruntime/runtime.go:176-222` | two calls that both look before either stores both run their tools, and the receipt of the one that stores last stays |
| `ConcurrentReceipts.OverlapLosesReceipt` | `pkg/codingruntime/runtime.go:217-221` | two such retries leave the file in place and a version conflict as the receipt |
| `ConcurrentReceipts.CreatedYetConflict` | `pkg/codingruntime/runtime.go:217-221` | such a pair, concretely |
| `ConcurrentReceipts.DifferentRequestsWriteTwice` | `pkg/codingruntime/runtime.go:176-222` | two such calls with different arguments both write, concretely |
| `Registry.RegisterExactly` | `pkg/runtimeext/registry.go:92-178` | registration is atomic: the whole set is bound exactly when nothing in it is missing, invalid, repeated or already bound and the registry is open; otherwise nothing changes |
| `Registry.HandlersReadyExactly` | `pkg/runtimeext/registry.go:92-135` | handlers are ready exactly when none is nil, each is valid once normalised and no two have the same key |
| `Registry.ResolversReadyExactly` | `pkg/runtimeext/registry.go:92-135` | resolvers likewise |
| `Registry.RegisterRefusal` | `pkg/runtimeext/registry.go:92-178` | what a refused set is refused for, in the order of the checks, with the first entry to blame |
| `Registry.OneHandlerIsASet` | `pkg/runtimeext/registry.go:64-86` | registering one handler is registering the set that holds it alone, errors included |
| `Registry.BindingsOnlyGrow` | `pkg/runtimeext/registry.go:64-184` | over every run of registrations and freezes no binding is lost or rebound, and nothing changes after a freeze |
| `Registry.CallStep` | `pkg/runtimeext/registry.go:64-184` | a failed call changes nothing |
| `Registry.InvariantAlways` | `pkg/runtimeext/registry.go:64-178` | in every reachable registry each key is the key of the canonical descriptor bound to it |
| `Registry.RegisteredForever` | `pkg/runtimeext/registry.go:192-200` | every handler of an accepted set stays bound to its normalised descriptor under its trimmed key |
| `Registry.ResolverRegisteredForever` | `pkg/runtimeext/registry.go:213-224` | every resolver of an accepted set stays bound under its trimmed key |
| `Registry.BootstrapRegisteredForever` | `pkg/runtimeext/registry.go:271-278` | so does the bootstrap |
| `Registry.OrderDoesNotMatter` | `pkg/runtimeext/registry.go:92-178` | any order of the same sets succeeds or fails alike and gives the same registry |
| `Registry.DescriptorsOrderIndependent` | `pkg/runtimeext/registry.go:240-269` | the descriptor list does not depend on registration order or on map iteration order |
| `Registry.EnvelopesExactly` | `pkg/runtimeext/registry.go:240-269` | the envelopes of a reachable registry are one for each binding, under its key and with what is bound there |
| `Registry.SortKeyInjective` | `pkg/runtimeext/registry.go:265-267` | the sort key determines kind and key |
| `Registry.ProjectExtensionRegistry.RegisterBusinessHandler` | `pkg/runtimeext/registry.go:64-86` | against its function |
| `Registry.ProjectExtensionRegistry.RegisterProjectExtensions` | `pkg/runtimeext/registry.go:92-178` | against the function RegisterExactly is about |
| `Registry.ProjectExtensionRegistry.Freeze` | `pkg/runtimeext/registry.go:180-184` | only the flag changes |
| `Registry.ProjectExtensionRegistry.FindBusinessHandler` | `pkg/runtimeext/registry.go:192-200` | a handler is found under every spelling of its key and under no other |
| `Registry.ProjectExtensionRegistry.Descriptors` | `pkg/runtimeext/registry.go:240-269` | one envelope for each thing registered, in strict order, whatever order the maps are walked in |
| `Handlers.NormalizeHandlerDescriptor` | `pkg/runtimeext/registry.go:408-424` | trimming and sorting in place, against its function |
| `Handlers.Validate` | `pkg/runtimeext/action.go:114-248` | rejects in the order of the checks; object and file names must be known, distinct and not blank |
| `Handlers.ValidationExactly` | `pkg/runtimeext/action.go:114-248` | a descriptor is valid exactly when it is named, typed and versioned, each capability is for an object of its own with known operations and none twice, and its files are known and distinct; the error otherwise is that of the first that fails |
| `Handlers.ValidatedIsCanonical` | `pkg/runtimeext/registry.go:408-424` | a descriptor valid after normalisation is in canonical form: trimmed, strictly sorted, known operations |
| `Handlers.NormalKeeps` | `pkg/runtimeext/registry.go:408-424` | normalisation trims names and sorts lists; the same is granted |
| `Handlers.NormalFormsAgree` | `pkg/runtimeext/registry.go:414-424` | two accepted descriptors have the same normal form exactly when they grant the same sets |
| `OwnerResolution.NormalizePublishedEffects` | `runtime/application/action/action_owner_resolution.go:134-164` | accepts exactly lists of distinct, not blank names with operations of the direction, and returns the canonical list |
| `OwnerResolution.ReorderedPublished` | `runtime/application/action/action_owner_resolution.go:134-179` | reordering authored lists changes neither acceptance nor the canonical form |
| `OwnerResolution.PublishedKeeps` | `runtime/application/action/action_owner_resolution.go:134-164` | the canonical list holds each authored effect, with its object, fields and operations, and nothing else |
| `OwnerResolution.EffectCapabilityListMatches` | `runtime/application/action/action_owner_resolution.go:188-206` | the map-based match, against its predicate |
| `OwnerResolution.MatchesExactly` | `runtime/application/action/action_owner_resolution.go:188-218` | on canonical lists matching is equality of object sets and of every explicit operation set |
| `OwnerResolution.EffectSetFromHandlerCapabilities` | `runtime/application/action/action_owner_resolution.go:94-115` | splitting operations into directions, against its function |
| `OwnerResolution.DirectionsCover` | `runtime/application/action/action_owner_resolution.go:12-28` | every operation a handler may be granted has a direction, but for one; one has both |
| `OwnerResolution.CapabilityExactly` | `runtime/application/action/action_owner_resolution.go:94-115` | from a canonical handler the derived lists are canonical and say exactly what it holds in each direction |
| `OwnerResolution.HandlerMatchesExactly` | `runtime/application/action/action_owner_resolution.go:188-218` | published effects match a registry-normalised handler exactly when objects and explicit operations are equal as sets |
| `OwnerResolution.ActionFileCapabilitiesMatch` | `runtime/application/action/action_owner_resolution.go:63-81` | the file match, against its predicate |
| `OwnerResolution.FilesMatchExactly` | `runtime/application/action/action_owner_resolution.go:63-81` | against a canonical descriptor the file lists match exactly when they are the same set |
| `OwnerResolution.RepeatedFileNameMatches` | `runtime/application/action/action_owner_resolution.go:63-81` | for a descriptor that repeats a name the match is not set equality: a concrete pair |
| `OwnerResolution.HandlerOwnsExactly` | `runtime/application/action/action_owner_resolution.go:30-61` | a handler owns an action exactly when it is the only candidate and effects and files agree as sets |
| `OwnerResolution.SystemOwnsExactly` | `runtime/application/action/action_owner_resolution.go:30-61` | a system operation owns an action exactly when it is the only candidate and the published effects, if any, are its one write on the action's object |
| `OwnerResolution.ResolvedExactly` | `runtime/application/action/action_owner_resolution.go:30-92` | who owns a resolved action and what it may touch: what was published, or if nothing was, the system operation's one write or all that the handler holds in each direction |
| `OwnerResolution.RefusedExactly` | `runtime/application/action/action_owner_resolution.go:30-61` | why an action gets no owner |
| `OwnerResolution.ResolvingAgain` | `runtime/application/action/action_owner_resolution.go:30-88` | resolving a handler action again with the effect set it was given changes nothing |
| `OwnerResolution.SystemResolvingAgainExactly` | `runtime/application/action/action_owner_resolution.go:30-92` | for a system action that holds exactly when effects were published, or its object is named and its operation is a write |
| `OwnerResolution.SystemRefusedSecondTime` | `runtime/application/action/action_owner_resolution.go:30-92` | an action where it does not, concretely |
| `OwnerResolution.ReorderedSameOwner` | `runtime/application/action/action_owner_resolution.go:30-61` | reordering authored lists never changes the outcome |
| `OwnerResolution.ReorderedHandlerSameOutcome` | `runtime/application/action/action_owner_resolution.go:30-61` | nor does reordering the handler's capabilities before registration |
| `OwnerResolution.ResolvePublishedActionOwner` | `runtime/application/action/action_owner_resolution.go:30-61` | the resolution, branch by branch, against the function the theorems are about |
| `RecordFilters.CompiledQuery` | `runtime/application/action/action_executor.go:422-488` | for every valid query whose filters compile, the tree is well formed at every depth, names no Runtime-owned field and selects a row exactly as the conjunction of the authored filters does under three-valued logic, where what a filter means is read off its own word |
| `RecordFilters.CompilesExactly` | `runtime/application/action/action_executor.go:440-488` | filters compile exactly when every node at every depth looks as its word demands; otherwise the error is that of the first node in reading order that does not |
| `RecordFilters.NodeMeaning` | `runtime/application/action/action_executor.go:440-488` | one compiled node evaluates to what its authored word means |
| `RecordFilters.AndAllExactly` | `runtime/infrastructure/persistence/database/query/builder.go:195-262` | a conjunction is false exactly when a part is and true exactly when all are; a disjunction the other way round |
| `RecordFilters.AmongExactly` | `runtime/infrastructure/persistence/database/query/builder.go:195-262` | membership is true exactly when a listed value equals the stored one, and unknown where only a null could have |
| `RecordFilters.StoreAcceptsExactly` | `runtime/infrastructure/persistence/database/query/builder.go:195-262` | the store takes a compiled query exactly when no authored node lies more than 16 levels down, the conjunction of several filters counted as a level |
| `RecordFilters.NullNeverMatches` | `pkg/runtimeext/transaction.go:26-29` | a null field matches no value test, nor its negation |
| `RecordFilters.ContainsRuntimeOwned` | `pkg/runtimeext/transaction.go:83-94` | the recursive search finds an owned field exactly when some node at some depth names one |
| `RecordFilters.OwnedExactly` | `pkg/runtimeext/transaction.go:83-94` | the three owned fields, whatever their case and the space around them |
| `RecordFilters.QueryValidExactly` | `pkg/runtimeext/transaction.go:57-81` | which queries are valid, in one condition |
| `RecordFilters.ActionRecordFilterNode` | `runtime/application/action/action_executor.go:440-488` | the node compiler, against its function |
| `RecordFilters.ActionRecordFilterExpression` | `runtime/application/action/action_executor.go:422-438` | the list compiler, against its function |

## Left out

- Databases, transports, processes, sandboxes, language servers and host startup: input and output. The transaction store, the receipt ledger, Identity, Lifecycle and the record planners are parameters.
- Panics inside the transaction store, a panic of the failure recording during recovery, and nil receivers or an absent unit-of-work manager.
- Everything `Invoke` checks before the claim is one verdict; authorization, payload normalisation and assurance have no model of their own, nor have the texts of errors.
- The physical transaction handle is known by whether it is open, landed, in doubt or undone; isolation levels and the contents of the database are not modelled.
- Handler descriptors keep their object and file capabilities; connector, notification, aggregate, workflow and organization capabilities are one validity flag, and assignee resolvers and workspace bootstrap keep their key. Copy isolation of descriptors is not stated (`Workflows` is shared by the clone).
- The handler-type pattern, time zones, URLs and other library checks: library semantics.
- `ConditionalUpdateManyRequest.Valid` and the other field-by-field validity methods: they would only add easy members.
- Strings are sequences of code points: invalid UTF-8 and byte slicing inside a code point are not modelled; lower-casing is exact only for letters whose lower case is ASCII. Go's 64-bit integers are unbounded here except in the output buffer, whose history is taken to stay below 2^63 bytes; JSON and Lua numbers are reals.
- The order in which `gopher-lua` walks a table is taken as given: positional entries in order, a nil never stored.
- Coding tools other than write and edit answer freely and are taken to change no file; changes they or anybody make to the workspace are the run's `Elsewhere` events. The closing of a scope while its calls are under way is not covered. File modes, directory creation and path cleaning are parameters.
- SHA-256 is a function with 64-character results; where two scopes must not share a digest, that is a premise about those two scopes (`Apart`).
- Handlers.Validate: the checks of connector, notification, aggregate, workflow and organization capabilities are one flag, because neither the registry nor owner resolution looks into them.
- Capabilities.CapabilitySession.DeliverIdentity: the contract version of the identity request is not carried, because it is a constant.
- What a recorded failure carries of the result is not modelled, only that and under which error it is recorded; record projection is left out beside output projection, and so is the invocation result's `Output` map, which repeats the record or object result.
- `StageWorkflowStart`, `StageNotification` and job staging: they append to a list, as `StageDurableIntent` does. Optimistic version tokens of a commit are not modelled.
