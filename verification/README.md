# Authority, transactions and migrations of the backend: a verified model

The backend keeps its safety rules in four places, and this project models each of them and proves
what they add up to:

* **Frozen database triggers.** Fourteen authority tables, transcript events and runtime tasks of a
  Session V2 conversation are guarded by triggers that exist in several frozen revisions. Tables are
  maps, a trigger is the guard of a step, and a run is any sequence of writes, epoch changes and
  trigger replacements. (`SessionTables`, `BindingTrigger`, `EventTrigger`, `AuthorityRuns`,
  `AuthorityLimits`, `RoundDemands`, `RoundCoherence`, `AcceptedRows`, `AcceptedEvents`,
  `SessionDatabase`, `AuthorityWidening`, `FrozenRules`, `WriterCutover`, `AnchoredRewrite`)
* **The session and transaction layer.** After-commit callbacks over savepoints, the row-level-security
  scope of a session with nested bypass scopes, and the repair of U+0000 on the way to the database.
  (`AfterCommit`, `RlsScope`, `JsonText`, `NulRepair`, `NulGuard`)
* **Tenant policies and audit numbering.** The predicate pair of every table as a non-interference
  statement, and the sequence behind audit events. (`TenantPolicies`, `AuditSequence`)
* **Retried migrations, canonical framing and staged patching.** Online index replacement, additive
  schema helpers, quarantine of duplicate runs, two approval invalidations that undo each other, the
  byte stream of the build identity, and the patching of an installed package.
  (`IndexReplacement`, `SchemaCompat`, `RunQuarantine`, `ApprovalInvalidation`, `BuildIdentity`,
  `SourcePatch`)

What the triggers accept is characterised twice over: by the guard that follows the source branch by
branch, and by what an accepted row or event must be like, from which the invariants of whole runs
follow. The two are proved equal for every row, every event and every revision.

Where the source updates an object step by step, the model is a class whose methods are proved equal
to a specification function of the old state, and the theorems are about that function. A process
that may die is a budget of changes it lives to make: because the budget is arbitrary, a statement
about the state it leaves is a statement about every intermediate state. `Wrappers` holds the option type
all modules share.

## What was found

Some promises hold only under a condition. The code is modelled as it is, and the exact condition is
proved.

* The pairing an admission was accepted with (its input came from its command) is lost by an accepted
  step exactly when the step moves that input to another command
  (`AuthorityLimits.PairingLostExactly`), which the triggers allow
  (`AuthorityLimits.InputMayBeMoved`). While it is lost no update that keeps the admission's command and
  input is accepted (`AuthorityLimits.AdmissionUpdateAcceptedExactly`); moving the input back repairs it
  (`AuthorityLimits.MovedInputComesBack`).
* References by item survive an accepted event write that stays in its session exactly when the event
  does not give up an item that a row of the session still names and no other event of it carries
  (`AuthorityLimits.EventWriteKeepsSoundExactly`).
* What ties the rows of a round together (run, turn, round, result, the commands of a saga) is demanded
  when a row is accepted, and not again when the other row changes. An accepted step keeps it exactly
  when what it writes still meets what others demand of it
  (`RoundDemands.StepKeepsCoherentExactly`); for a run that is when its turn stays or nothing names it
  (`RoundDemands.TurnChangeBreaksExactly`).
* The input-control and the admission revision are no widenings. Exactly which rows cross each of them in
  either direction is proved (`AuthorityWidening.CrossingInputControl` and its companions); a saga in
  state `requested` never crosses the first.
* The two approval migrations undo each other exactly for tables whose rows all pass a check that can
  be made before the first upgrade (`ApprovalInvalidation.UndoneExactly`); a row without details does
  not pass it, because its NULL comes back as an empty object.
* The backend sorts paths by code point, the frontend by UTF-16 code unit. The two give the same stream
  exactly when no two paths first differ in a character above the basic plane on one side and a
  character from U+E000 to U+FFFF on the other (`BuildIdentity.TwinsAgreeUnlessCrossed`).
* A tenant's statement tells of other tenants' rows in exactly two cases: it inserts an identifier that a
  hidden row has, which the unique index refuses, or one that a hidden row refers to, which then comes
  into sight (`TenantPolicies.StatementTellsExactly`). The outcome of the statement tells of the first
  only (`TenantPolicies.ResultTellsExactly`).
* After a completed patch run the next one is accepted exactly when the patches of every file apply to
  the text they leave, and changes 0 files exactly when they leave that text alone
  (`SourcePatch.RerunAcceptedExactly`, `SourcePatch.RerunChangesNothingExactly`). Where a later patch
  destroys an earlier replacement, which of the two fails depends on the text
  (`SourcePatch.UndoneDependsOnText`).
* A text bound to a JSON column that is no JSON and holds a raw U+0000 passes the guard unrepaired
  exactly if the escape does not occur in it as well (`NulGuard.RawNulPassesExactly`).
* An audit number named explicitly leaves the sequence ahead of all stored numbers exactly when it is
  behind the sequence (`AuditSequence.StepStaysAheadExactly`); otherwise later default inserts issue it
  again (`AuditSequence.NamedNumberCollides`).
* The serializer's fast path differs from repair-then-encode exactly on values that fail both ways, and
  then only in which error is raised (`NulRepair.FastPathAgrees`).

## Model

| member | source | states |
|---|---|---|
| SessionTables.NormalizedTextIsExact | backend/migration_snapshots/delegation_session_rounds_1017.py:13-19 | The normalised comparison of session identifiers (`replace(lower(...),'-','')`) identifies exactly one session. |
| AuthorityRuns.AcceptedRowIsSound | backend/migration_snapshots/session_v2_contract_0716.py:312-668 | At every revision, a row the binding trigger accepts has its session's tenant, and each of its references resolves in its own tenant and session. |
| AuthorityRuns.AcceptedEventIsSound | backend/migration_snapshots/session_v2_contract_0716.py:159-200 | The references of an accepted V2 event resolve in the event's tenant and session. |
| AuthorityRuns.StepExactly | backend/migration_snapshots/session_v2_contract_0716.py:274-294 | An accepted statement writes its row and nothing else, and a refused one changes nothing. |
| AuthorityRuns.StepKeepsFrames | backend/migration_snapshots/session_v2_contract_0716.py:312-325 | No write moves or loses anything a frame lookup depends on, given that identity columns of sessions, runs and events are written once. |
| AuthorityRuns.RunsKeepFrames | backend/migration_snapshots/session_v2_contract_0716.py:312-668 | In every state any run reaches, through any replacement of the triggers, every authority row has its session's tenant and every reference of a row or a V2 event stays inside one tenant and session. |
| AuthorityRuns.CausationStaysInSession | backend/migration_snapshots/session_v2_contract_0716.py:334-340 | A causation chain of any length never leaves the tenant and session it starts in. |
| AuthorityLimits.PairingLostExactly | backend/migration_snapshots/session_v2_contract_0716.py:367-386 | An accepted step ends the pairing of an admission with its input exactly when it moves that input to another command. |
| AuthorityLimits.PairingHoldsOverRuns | backend/migration_snapshots/session_v2_contract_0716.py:367-386 | Over any run without such a move the pairing holds. |
| AuthorityLimits.InputMayBeMoved | backend/migration_snapshots/session_v2_contract_0716.py:341-366 | The move is accepted for every input that passes its branch and every command of its session. |
| AuthorityLimits.AdmissionUpdateAcceptedExactly | backend/migration_snapshots/session_v2_contract_0716.py:367-386 | In any sound state an update that keeps an admission's command and input is accepted exactly while the two belong together and revision and hook event are right. |
| AuthorityLimits.MovedInputComesBack | backend/migration_snapshots/session_v2_contract_0716.py:341-366 | Moving the input and moving it back are both accepted and together change nothing. |
| AuthorityLimits.EventWriteKeepsSoundExactly | backend/migration_snapshots/session_v2_contract_0716.py:428-447 | An accepted event write that stays in its session keeps every reference resolved exactly when it does not abandon an item that a row of the session names and no other event of it carries. |
| AuthorityLimits.RunsKeepFramesUnlessAbandoned | backend/migration_snapshots/session_v2_contract_0716.py:312-668 | References stay inside one tenant and session over any run in which no named item is abandoned; the item column need not be fixed. |
| EventTrigger.ScopeIsExact | backend/migration_snapshots/session_v2_contract_0716.py:104-157 | An accepted V2 event has one of four levels, although a missing level passes the rule comparison; its scope document has exactly the keys of that level and names exactly the event's session and run. |
| EventTrigger.ResultsHaveRoundScope | backend/migration_snapshots/session_v2_contract_0716.py:186-207 | An accepted event that names a result or an invocation has round scope, and names its run, turn and round. |
| SessionDatabase.Database.EnforceSessionWriterEpoch | backend/migration_snapshots/session_v2_contract_0716.py:274-294 | The writer trigger's IF and RAISE sequence raises exactly under an enforcing epoch, when a new run is not of the generation for new runs, a changed run does not keep its own, or that generation is not allowed. |
| SessionDatabase.Database.EnforceSessionEventContract | backend/migration_snapshots/session_v2_contract_0716.py:57-260 | The event trigger's sequence, with the projection guard before the epoch check, lets through exactly the events of their session's tenant and agent that only move their projection, or whose writer is allowed and that are well scoped, referenced and payloaded. |
| SessionDatabase.Database.EnforceSessionTenantBinding | backend/migration_snapshots/session_v2_contract_0716.py:312-668 | The binding trigger's queries and IF sequences let through exactly the rows that keep their frame, have their session's tenant, refer only inside their frame, have their demands met, are served by their run, and have what is particular to their table. |
| SessionDatabase.Database.WriteRuntimeTask | backend/migration_snapshots/session_v2_contract_0716.py:274-294 | A write of a run behind its trigger is one step of the model and keeps every row and event sound; under an enforcing epoch a new run is of the generation for new runs and a changed one of its old generation. |
| SessionDatabase.Database.WriteTranscriptEvent | backend/migration_snapshots/session_v2_contract_0716.py:57-260 | A write of an event behind its trigger is one step of the model and keeps every row and event sound. |
| SessionDatabase.Database.WriteAuthorityRow | backend/migration_snapshots/session_v2_contract_0716.py:312-668 | A write of an authority row behind its trigger is one step of the model and keeps every row and event sound. |
| RoundDemands.BranchMeets | backend/migration_snapshots/session_v2_contract_0716.py:367-640 | At acceptance everything a row demands of the columns of other rows, runs and events holds. |
| RoundDemands.EventMeets | backend/migration_snapshots/session_v2_contract_0716.py:186-207 | So does everything a V2 event demands. |
| RoundDemands.StepKeepsCoherentExactly | backend/migration_snapshots/session_v2_contract_0716.py:312-668 | An accepted step keeps all demands of all rows and events met exactly when the new content of what it writes meets what others demand of it. |
| RoundDemands.RunsStayCoherent | backend/migration_snapshots/session_v2_contract_0716.py:312-668 | Over any run all demands stay met if the columns others demand something of, the turn of a run among them, are written once. |
| RoundDemands.TurnChangeBreaksExactly | backend/migration_snapshots/session_v2_contract_0716.py:533-568 | An accepted update of a run breaks a demand exactly when it changes the turn of a run that a model result or a saga names. |
| AcceptedRows.RowAcceptedExactly | backend/migration_snapshots/session_v2_contract_0716.py:312-668 | At every revision a row is accepted if and only if it keeps its frame, has its session's tenant, its references stay in its frame, everything it demands of other rows, runs and events holds, its run serves its session, and what is particular to its table holds. |
| AcceptedRows.ChildIsServedFrom | backend/migration_snapshots/delegation_session_rounds_1017.py:13-34 | The child session of a delegation or a business task is opened to the rows of its rounds and to permission responses exactly from the four revisions on that say so, and then to every row that is right in all other respects. |
| AcceptedRows.FirstResultOfChild | backend/migration_snapshots/delegation_session_rounds_1017.py:13-34 | The first model result of a child session, with its turn and inputs right, is accepted from the revision on that opens the session, and not before. |
| AcceptedEvents.EventAcceptedExactly | backend/migration_snapshots/session_v2_contract_0716.py:57-260 | At every revision an event is accepted if and only if it has its session's tenant and agent, and only moves its projection forward, or has an allowed writer and is well scoped, referenced and payloaded (schema 2) or written by its own run (legacy). |
| AcceptedEvents.EnvelopeExactly | backend/migration_snapshots/session_v2_contract_0716.py:104-157 | Envelope, rule and scope are right exactly for an event whose type and schema are made of kind and lifecycle, that the rule tables allow, and whose scope document has precisely the keys of its level with session, turn, run and round filled in. |
| AcceptedEvents.PayloadExactly | backend/migration_snapshots/session_v2_contract_0716.py:208-260 | The payload is right exactly if the three documents are there, the assistant phase is that of the kind, and a hook's boundary allows its lifecycle, level and source. |
| AcceptedEvents.CanonicalExactly | backend/migration_snapshots/session_v2_projection_epoch_contract_0716.py:12-39 | Two events have the same canonical content exactly if they agree in every column but the projection's and in all metadata but the eight keys of the bridge. |
| AcceptedEvents.RunAcceptedExactly | backend/migration_snapshots/session_v2_contract_0716.py:274-294 | A run is accepted unless an enforcing epoch does not allow its generation, or it is not the one for new runs, or, for a changed run, its own. |
| RoundCoherence.ObligationHasRunsTurn | backend/migration_snapshots/session_v2_contract_0716.py:569-584 | While all demands are met, an obligation is of the turn its run has, by way of the model result it came from. |
| RoundCoherence.PlanIsOfOneTurn | backend/migration_snapshots/session_v2_contract_0716.py:585-615 | While all demands are met, all obligations of a plan are of the plan's run and model result and of the run's turn. |
| RoundCoherence.OutcomeEndsItsRun | backend/migration_snapshots/session_v2_contract_0716.py:616-640 | While all demands are met, an outcome is of its run's turn; its terminal event, if of schema 2, has round scope and names the same run, turn and result. |
| RoundCoherence.InvocationIsAnsweredInItsRound | backend/migration_snapshots/session_v2_contract_0716.py:506-532 | While all demands are met, the result event of an invocation answers it in the run and round it was made in. |
| RoundCoherence.EventIsOfItsResult | backend/migration_snapshots/session_v2_contract_0716.py:186-195 | While all demands are met, a V2 event that names a model result names its run, turn and round, and the turn is the run's. |
| RoundCoherence.SagaIsOneChain | backend/migration_snapshots/session_v2_contract_0716.py:448-505 | While all demands are met, the cancel command, the saga's command and the replacing human input are one causation chain of one session. |
| RoundCoherence.SagaCancelsOldRun | backend/migration_snapshots/session_v2_contract_0716.py:448-505 | While all demands are met, the control of a saga's cancel command cancels the run that is replaced. |
| RoundCoherence.ConsumedCarryForwardHasRound | backend/migration_snapshots/session_v2_contract_0716.py:387-427 | While all demands are met, a consumed carry-forward has a target turn and round, and a model result of exactly that round exists. |
| RoundCoherence.CarryForwardFollowsAdmission | backend/migration_snapshots/session_v2_contract_0716.py:367-427 | While all demands are met, a carry-forward follows an admission of its input, by that admission's hook run, and the input is of the admission's command. |
| AuthorityWidening.LaterBindingAcceptsMore | backend/migration_snapshots/delegation_permissions_1022.py:8-22 | From the admission revision on, every row a revision accepts is accepted by every later one. |
| AuthorityWidening.BranchNeedsOnlyRunPart | backend/migration_snapshots/delegation_session_rounds_1017.py:24-34 | From the admission revision on, two revisions of a branch differ in the run condition and in nothing else. |
| AuthorityWidening.NewAcceptanceIsExactChild | backend/migration_snapshots/business_permissions_1022.py:9-22 | Every newly accepted row names a run whose exact bound child session is the row's session: the child row points back at the run and no other session is denoted; in the control-input branch only permission responses, of business tasks first and of delegations later. |
| AcceptedRows.NewlyAcceptedExactly | backend/migration_snapshots/business_permissions_1022.py:9-22 | And of the rows that are right in all other respects, exactly those are newly accepted whose session was opened for their run by the later revision and not yet by the earlier one. |
| AuthorityWidening.OtherBranchesAreUntouched | backend/migration_snapshots/business_task_child_1022.py:18-22 | Tables whose branch names no run are treated alike by all these revisions. |
| AuthorityWidening.CrossingInputControl | backend/migration_snapshots/session_v2_input_control_contract_0716.py:57-113 | A saga the first revision accepts is accepted by the input-control revision exactly in a known state past `requested`. |
| AuthorityWidening.NewWithInputControl | backend/migration_snapshots/session_v2_input_control_contract_0716.py:17-113 | A saga the input-control revision accepts was accepted before exactly with its cancel pair while its input targets the old turn and run. |
| AuthorityWidening.RequestedSagaChangesSides | backend/migration_snapshots/session_v2_input_control_contract_0716.py:57-98 | A saga row in state `requested` is never accepted both before and after the input-control revision. |
| AuthorityWidening.CrossingAdmissionRevision | backend/migration_snapshots/session_v2_admission_revision_contract_0716.py:11-23 | The admission revision keeps exactly the admissions of a positive revision their input has reached. |
| AuthorityWidening.AdmissionsOnlyNarrow | backend/migration_snapshots/session_v2_admission_revision_contract_0716.py:11-23 | It admits no admission that was not accepted before. |
| AuthorityWidening.SagaCrossesAdmissionRevision | backend/migration_snapshots/session_v2_admission_revision_contract_0716.py:25-32 | It keeps a saga exactly if the present revision of its input was admitted. |
| AuthorityWidening.NewWithAdmissionRevision | backend/migration_snapshots/session_v2_admission_revision_contract_0716.py:34-38 | A saga it accepts was accepted before unless it awaits reconciliation without a cancel pair. |
| AuthorityWidening.EarlyRevisionsTouchTwoTables | backend/migration_snapshots/session_v2_admission_revision_contract_0716.py:71-75 | Up to the admission revision only admissions and replacement sagas are treated differently. |
| AuthorityWidening.LaterEventAcceptsMore | backend/migration_snapshots/peer_a2a_session_authority_contract_0717.py:47-73 | Every event the event trigger accepts at a revision is accepted at every later one. |
| FrozenRules.FrozenEventsStayAccepted | backend/migration_snapshots/session_v2_admission_revision_contract_0716.py:40-52 | With the rule tables the triggers hold, that is so without any assumption on them: the admission revision's edits of the tables only widen them. |
| AuthorityWidening.NewEventIsOfItsRunsSession | backend/migration_snapshots/runtime_root_ledger_contract_0716.py:10-37 | A newly accepted event belongs to a run of its tenant whose parent or child text denotes exactly the event's session, on the side of the agent that wrote it. |
| WriterCutover.SchemaFollowsGeneration | backend/migration_snapshots/session_v2_contract_0716.py:63-102 | While enforcement stays on, however state and generations of the epoch change, every event written has schema 2 exactly for a run of generation 2 and otherwise belongs to generation 1. |
| WriterCutover.NoRunMixesSchemas | backend/migration_snapshots/session_v2_contract_0716.py:274-294 | Two events written for one run under enforcement have the same kind of schema. |
| WriterCutover.FenceHoldsOverRuns | backend/migration_snapshots/session_v2_projection_epoch_contract_0716.py:12-39 | While generation g is out of the allowed set under enforcement, no run of g is inserted or changed, no new canonical content becomes bound to one, and projections only advance. |
| WriterCutover.FencedProjectionIsAccepted | backend/migration_snapshots/session_v2_projection_epoch_contract_0716.py:33-38 | The fence still lets a drained generation finish its projection. |
| WriterCutover.NewRunIsOfItsGeneration | backend/migration_snapshots/session_v2_contract_0716.py:279-284 | Under an enforcing epoch every run that a step inserts has the generation for new runs, which is allowed. |
| WriterCutover.DrainingAddsNoRun | backend/migration_snapshots/session_v2_contract_0716.py:274-294 | While enforcement is on and new runs are of one generation, no run of any other generation comes into being and none changes its generation, whatever else happens. |
| AnchoredRewrite.RewriteBranches | backend/migration_snapshots/delegation_session_rounds_1017.py:24-34 | The loop over the named tables computes the branch-by-branch edit, and fails where a header, marker or single anchor is missing. |
| AnchoredRewrite.LoopEditsNamedBranches | backend/migration_snapshots/delegation_session_rounds_1017.py:24-34 | The loop succeeds, replaces the one anchor of each named branch, leaves every other branch's text as it was to the character, and keeps the layout of branches. |
| AnchoredRewrite.LoopExchangesAnchors | backend/migration_snapshots/delegation_session_rounds_1017.py:24-34 | The whole text before and after the loop are the same pieces, joined once by the anchor and once by its replacement, and the joints are exactly the anchors of the named branches: all other text is identical. |
| AnchoredRewrite.EditIsOneSplice | backend/migration_snapshots/business_permissions_1022.py:9-22 | An edited branch changes exactly one occurrence of the anchor; all other text is identical. |
| AnchoredRewrite.ReplaceOnceExchanges | backend/migration_snapshots/session_v2_admission_revision_contract_0716.py:65-68 | The exactly-once replacement exchanges the condition itself and keeps what stands before and behind it. |
| AnchoredRewrite.ReplaceAllActsPerBranch | backend/migration_snapshots/business_task_child_1022.py:18-22 | Replacing every anchor rewrites the text before a branch, the branch and the text behind it independently. |
| AfterCommit.SyncSession.ScheduleAfterCommit | backend/app/database.py:322-349 | A callback is scheduled exactly when a transaction is open, tagged with the innermost one. |
| AfterCommit.SyncSession.DispatchAfterOuterCommit | backend/app/database.py:352-372 | Nothing happens inside a savepoint; at the outer commit all pending callbacks are dispatched in order and forgotten. |
| AfterCommit.SyncSession.DiscardAfterOuterRollback | backend/app/database.py:376-393 | An outer rollback forgets every callback; a savepoint rollback forgets exactly those of the savepoint and of scopes inside it. |
| AfterCommit.SyncSession.BelongsToRolledBackSavepoint | backend/app/database.py:383-389 | The walk along parents decides whether a transaction is the rolled back savepoint or inside it. |
| AfterCommit.SessionRefinesStack | backend/app/database.py:322-393 | Over every run the flat list with the parent walk publishes exactly what a stack of scopes publishes. |
| AfterCommit.PendingAreTheSurvivors | backend/app/database.py:375-393 | What is pending is what was scheduled and has no enclosing scope rolled back, in schedule order and once each. |
| AfterCommit.CommitPublishesSurvivors | backend/app/database.py:352-372 | An outer commit dispatches exactly those and leaves nothing behind. |
| AfterCommit.NothingLeaks | backend/app/database.py:375-393 | Outside a transaction nothing is pending, so nothing leaks into a later one. |
| RlsScope.RunKeepsScope | backend/app/database.py:460-513 | For every program of statements, failures, commits, rollbacks, pins and nested bypass scopes: a healthy transaction of a session with a scope runs under exactly that scope, and BYPASS is in force only inside a bypass scope. |
| RlsScope.InsideBypass | backend/app/database.py:604-699 | Inside a bypass scope the setting agrees with the session after every step of the body. |
| RlsScope.ScopeIsRestored | backend/app/database.py:639-699 | Leaving a bypass scope by any path restores the exact prior session scope. |
| RlsScope.UnscopedSessionFallsBack | backend/app/database.py:674-693 | A session that entered without a scope leaves, while its transaction is healthy, under exactly the context variable's tenant, or under the empty scope if that is absent or no tenant. |
| RlsScope.ScopedSessionIsPinned | backend/app/database.py:547-589 | The body of a tenant-scoped session starts in a healthy transaction under the effective tenant, with the context variable set to it, and ends without bypass; the variable is put back; no body runs exactly if a required tenant is missing, the tenant is none, or no transaction can be begun. |
| RlsScope.PinSets | backend/app/database.py:495-513 | Whatever fails, pinning sets session scope and context variable to the tenant, and changes neither for a value that is no tenant. |
| RlsScope.PinExactly | backend/app/database.py:499-507 | A pin outside a transaction is done by the begin hook and fails only with it; in an open transaction it is one statement and fails exactly with it; afterwards the tenant's setting is in force. |
| RlsScope.CalmRunSucceeds | backend/app/database.py:604-699 | A program of statements, commits, rollbacks, pins and nested bypass scopes in which nothing fails never raises, and ends with the scope of its last pin outside bypass scopes and the context variable of its last pin or assignment. |
| RlsScope.BypassRaisesExactly | backend/app/database.py:629-699 | A bypass scope raises exactly if it has no reason, cannot be entered, or its body raises; leaving never raises. |
| RlsScope.OrmSession.Connection | backend/app/database.py:460-476 | A new transaction starts under the persisted scope and reports it to a pin in progress. |
| RlsScope.OrmSession.PinRlsTenantContext | backend/app/database.py:495-513 | Pinning sets session scope and context variable to the tenant whatever fails, and issues its own statement unless the begin hook already did. |
| RlsScope.OrmSession.EnterRlsBypass | backend/app/database.py:629-655 | Entry records the prior scope and puts session and transaction under BYPASS. |
| RlsScope.OrmSession.ExitRlsBypass | backend/app/database.py:656-699 | Exit restores session scope and setting, skipping the statement on an inactive session. |
| JsonText.LoadsUndoesDumps | backend/app/database.py:112-118 | Reading what was written gives the value back, with adjacent surrogate halves joined, tuples as lists and the last of equal keys kept (string escapes of section 7 of RFC 8259). |
| JsonText.CharacterExactly | backend/app/database.py:112-118 | Each character is written as itself, as one of seven two-character escapes, as its lower-case escape, or as those of its two surrogates (section 7 of RFC 8259). |
| JsonText.EncodingIsAscii | backend/app/database.py:112-118 | Whatever a value holds, its encoding is printable ASCII, so no raw U+0000 is ever written. |
| NulRepair.RepairPostgresNul | backend/app/database.py:40-82 | The recursive repair with its accumulators computes the repaired value and the count, or the collision; `NulRepair.RepairIsExact` says what the repaired value is. |
| NulRepair.RepairIsExact | backend/app/database.py:40-82 | A repaired value is the original with each U+0000, in strings and in keys, tuple keys included, shown by backslash, u and four zeros where it stood, and everything else as it was; none is left. |
| NulRepair.StringsAreRepaired | backend/app/database.py:40-53 | Pieces of text joined by U+0000 become the same pieces joined by the escape, and the count is the number of joints. |
| NulRepair.RepairCountsAll | backend/app/database.py:40-82 | The count is the number of U+0000 in all strings and keys of the value. |
| NulRepair.RepairFailsOnCollision | backend/app/database.py:53-65 | Repair fails exactly when some object has two keys with the same repaired form. |
| NulRepair.CleanIsFixed | backend/app/database.py:40-82 | Repair is the identity with count 0 on clean values. |
| NulRepair.RepairIsIdempotent | backend/app/database.py:40-82 | A second repair changes nothing and counts nothing. |
| NulRepair.FastPathAgrees | backend/app/database.py:112-118 | The serializer's fast path equals encoding the repaired value, errors included, exactly if the value is encodable or has no key collision; both succeed exactly if it is encodable and has none. |
| NulRepair.NothingIsRepairedTwice | backend/app/database.py:134-146 | On anything the serializer produced, the guard behind it changes nothing and counts nothing. |
| NulGuard.GuardPasses | backend/app/database.py:134-146 | A text without the escape, and a document without U+0000, passes the guard unchanged. |
| NulGuard.GuardRepairsText | backend/app/database.py:139-142 | A text with the escape that is no JSON is repaired as text: every U+0000 is shown and counted. |
| NulGuard.GuardRepairsDocument | backend/app/database.py:143-146 | Any JSON document with U+0000 in it is refused exactly if two of its keys collide, and otherwise replaced by a text that reads as the repaired document, with every U+0000 counted. |
| TenantPolicies.ReadsOwnAndPublic | backend/app/db_bootstrap.py:412-618 | A tenant's session can read exactly the rows the tenant owns, by its column or through the user, post, skill, agent or team they hang on, and the public ones: flags, settings without secrets, seven kinds of platform rows, and files of built-in skills. |
| TenantPolicies.SystemRecordsAreHidden | backend/app/db_bootstrap.py:255-257 | Rows without a tenant of audit logs, users and strict tables are never readable or writable for a tenant. |
| TenantPolicies.WritesOwn | backend/app/db_bootstrap.py:589-618 | What it may leave behind is owned by the tenant, apart from feature flags and settings that are not secret. |
| TenantPolicies.InsertEffect | backend/app/db_bootstrap.py:621-660 | An insert adds its one row exactly if it passes the check and its identifier is free. |
| TenantPolicies.UpdateEffect | backend/app/db_bootstrap.py:621-660 | An update changes exactly the visible rows it picks, or none if one of them may not become what it would. |
| TenantPolicies.DeleteEffect | backend/app/db_bootstrap.py:621-660 | A delete removes exactly the visible rows it picks. |
| TenantPolicies.RunsKeepTheirRows | backend/app/db_bootstrap.py:460-618 | Whatever the sessions of other tenants do, in any interleaving, a tenant ends with exactly the rows it had, rows owned through a parent included. |
| TenantPolicies.StepInView | backend/app/db_bootstrap.py:621-660 | A statement acts on the visible rows as if they were the whole database. |
| TenantPolicies.RunsObserveOwnAndPublic | backend/app/db_bootstrap.py:460-618 | Two databases that agree on a tenant's own and the public rows cannot be told apart by any run of its session, provided inserted identifiers are neither in use by hidden rows nor referred to by them. |
| TenantPolicies.ResultTellsExactly | backend/app/db_bootstrap.py:470-474 | The outcome of a statement differs from that on the visible rows alone exactly when an insert that passes the write check uses the identifier of a hidden row. |
| TenantPolicies.StatementTellsExactly | backend/app/db_bootstrap.py:460-618 | What the session sees afterwards differs exactly then, or when a free identifier is inserted that a hidden row refers to as its parent. |
| TenantPolicies.UnscopedReadsPublicOnly | backend/app/db_bootstrap.py:470-474 | A missing or empty scope fails closed: only public rows are readable. |
| TenantPolicies.StampNewRows | backend/app/database.py:396-422 | The before-flush hook stamps the session's tenant on exactly the unowned new rows of strict tables. |
| TenantPolicies.ScopeDecides | backend/app/database.py:396-417 | Under each session scope exactly these rows are readable: all in bypass, the public ones always, and the tenant's own under its scope. |
| TenantPolicies.StampedRowPasses | backend/app/database.py:396-417 | After it a strict row passes the write check exactly when it was unowned or the session's own. |
| AuditSequence.Database.HighWater | backend/app/db_bootstrap.py:843-848 | The loop finds the highest number of the visible events. |
| AuditSequence.Database.ApplySequence | backend/app/db_bootstrap.py:828-857 | The setup raises the sequence over all tenants' evidence and restores the scope. |
| AuditSequence.SetupGetsAhead | backend/app/db_bootstrap.py:842-849 | After it the next number exceeds every stored one, is never lower than before, and is raised no further than the highest stored number requires. |
| AuditSequence.SetupKeepsScope | backend/app/db_bootstrap.py:835-857 | It restores the tenant scope it found, or the empty one, and changes no event. |
| AuditSequence.ScopedHighWaterFallsShort | backend/app/db_bootstrap.py:836-837 | Read through one tenant's scope instead of BYPASS, the next number is never higher, and too low exactly when another tenant has stored a number from there on. |
| AuditSequence.IssuedNumbersRise | backend/app/db_bootstrap.py:842-855 | Over any run of inserts, rolled back inserts and setups the issued numbers rise strictly. |
| AuditSequence.NumbersAreConsecutive | backend/app/db_bootstrap.py:850-855 | Default inserts that are kept are stored in order under consecutive numbers from the sequence's next. |
| AuditSequence.StepStaysAheadExactly | backend/app/db_bootstrap.py:842-855 | A step leaves every stored number below the next one exactly when it stores no named number from there on. |
| AuditSequence.IssuedNumbersAreNew | backend/app/db_bootstrap.py:842-855 | From a setup on, as long as named numbers are behind the sequence, an issued number is none that is stored, and at the end all stored numbers are below the next one. |
| AuditSequence.NamedNumberCollides | backend/app/db_bootstrap.py:842-855 | A named number that is not behind the sequence is issued again by as many default inserts as it is ahead. |
| IndexReplacement.Catalog.Replace | backend/alembic/versions/a2a_continuation_task_0828.py:165-179 | The four statements of the replacement, dying anywhere, leave the specified catalog. |
| IndexReplacement.Catalog.Migrate | backend/alembic/versions/a2a_continuation_task_0828.py:193-225 | One attempt in either direction. |
| IndexReplacement.CreationStages | backend/alembic/versions/a2a_continuation_task_0828.py:165-179 | A creation that dies leaves nothing, a shell, or a built index that is not valid, depending on how far it got. |
| IndexReplacement.RemovalStages | backend/alembic/versions/a2a_continuation_task_0828.py:146-163 | A removal that dies leaves the index as it was, invalid, or invalid and not maintained. |
| IndexReplacement.AttemptKeepsIndexed | backend/alembic/versions/a2a_continuation_task_0828.py:165-179 | However far an attempt gets, the recovery lane has a usable index and no statement raises; one that ends leaves the official index alone with its predicate. |
| IndexReplacement.TriesKeepIndexed | backend/alembic/versions/a2a_continuation_task_0828.py:193-225 | So for any number of attempts in both directions, each dying at any point. |
| IndexReplacement.LastTryDecides | backend/alembic/versions/a2a_continuation_task_0828.py:146-179 | Whatever they left behind, an uninterrupted attempt finishes the work. |
| SchemaCompat.Operations.CreateTableIfMissing | backend/app/migration_compat.py:32-54 | Creates the table, adopts one with all declared columns, or raises drift. |
| SchemaCompat.Operations.CreateIndexIfMissing | backend/app/migration_compat.py:57-87 | Creates the index, adopts one of the same columns and uniqueness, or raises drift. |
| SchemaCompat.Operations.AddColumnIfMissing | backend/app/migration_compat.py:90-106 | Adds the column unless it is there. |
| SchemaCompat.Operations.CreateForeignKeyIfMissing | backend/app/migration_compat.py:109-159 | Creates the foreign key, adopts one of the same shape, or raises drift. |
| SchemaCompat.Operations.CreateUniqueIfMissing | backend/app/migration_compat.py:162-192 | Creates the unique constraint, adopts one of the same columns, or raises drift. |
| SchemaCompat.Operations.CreateCheckIfMissing | backend/app/migration_compat.py:195-216 | Creates the check constraint unless one of its name is there. |
| SchemaCompat.CreatedExactly | backend/app/migration_compat.py:32-216 | A call creates exactly if its object is missing and the database admits it, and then exactly that object, with the unique index a unique constraint brings. |
| SchemaCompat.AdoptedExactly | backend/app/migration_compat.py:32-216 | It adopts exactly what is there and fits, and raises drift exactly on what is there and does not. |
| SchemaCompat.RunExtends | backend/app/migration_compat.py:1-8 | No list of calls alters anything that exists. |
| SchemaCompat.ReplayCreatesNothing | backend/app/migration_compat.py:32-216 | Replayed calls create nothing and all report false. |
| SchemaCompat.PrefixThenWhole | backend/app/migration_compat.py:32-216 | Any prefix and then the whole list ends in the catalog of one full run, and reports call by call what is new. |
| SchemaCompat.TriesReachTheFurthest | backend/app/migration_compat.py:32-216 | After any attempts that died, the catalog is that of the furthest one. |
| RunQuarantine.RunTable.Upgrade | backend/migration_snapshots/session_v2_permission_tool_contract_0716.py:28-69 | Drop, ranked update and unique index: no two active runs of one agent and session are left, and the index creation never raises. |
| RunQuarantine.SurvivorsAreTheBest | backend/migration_snapshots/session_v2_permission_tool_contract_0716.py:28-47 | Active afterwards are exactly the runs that are preferred to all their rivals: running before resumable, suspended and pending, then the newer, then the higher id; they are unchanged. |
| RunQuarantine.GroupKeepsOne | backend/migration_snapshots/session_v2_permission_tool_contract_0716.py:28-47 | Every active run is kept or has a rival of its agent and session that is. |
| RunQuarantine.IndexHolds | backend/migration_snapshots/session_v2_permission_tool_contract_0716.py:64-69 | And no more than one: the partial unique index holds. |
| RunQuarantine.OnlyDuplicatesChange | backend/migration_snapshots/session_v2_permission_tool_contract_0716.py:48-62 | No run is lost, and only active runs with a preferred rival change: they get the status, keep a summary they have, and their metadata gets the three entries and keeps the rest. |
| RunQuarantine.NothingToQuarantine | backend/migration_snapshots/session_v2_permission_tool_contract_0716.py:28-62 | The update changes nothing exactly when no run has a rival. |
| ApprovalInvalidation.UndoneExactly | backend/alembic/versions/ai_asset_usage_events_0711.py:277-335 | Both upgrades and both downgrades are the identity on every column of every row exactly when every row passes the check. |
| ApprovalInvalidation.Approvals.UpAndDown | backend/alembic/versions/approval_execution_envelope_0711.py:27-81 | Run in place one after the other, the four statements leave the table as it was exactly when every row passes the check. |
| ApprovalInvalidation.LegacyInvalidates | backend/alembic/versions/approval_execution_envelope_0711.py:36-61 | The first migration rejects exactly the pending and approved tool approvals, and records what it overwrote in the details. |
| ApprovalInvalidation.AssetInvalidates | backend/alembic/versions/ai_asset_usage_events_0711.py:277-296 | The second rejects exactly those of asset tools that are open for execution without an envelope of the second version, and records what it overwrote. |
| ApprovalInvalidation.LegacyRestores | backend/alembic/versions/approval_execution_envelope_0711.py:62-84 | The first downgrade gives a marked row exactly what it records, without the record, and leaves the others. |
| ApprovalInvalidation.AssetRestores | backend/alembic/versions/ai_asset_usage_events_0711.py:316-335 | So does the second, with `pending` where nothing is recorded, and an error where the details are a text. |
| ApprovalInvalidation.LegacyRow | backend/alembic/versions/approval_execution_envelope_0711.py:36-81 | The check is exact for rows the first migration invalidates. |
| ApprovalInvalidation.AssetRow | backend/alembic/versions/ai_asset_usage_events_0711.py:277-335 | The check is exact for rows the second migration invalidates. |
| ApprovalInvalidation.OtherRow | backend/alembic/versions/approval_execution_envelope_0711.py:59-81 | The check is exact for rows neither migration invalidates. |
| ApprovalInvalidation.UntouchedAtEveryStage | backend/alembic/versions/ai_asset_usage_events_0711.py:316-335 | Such rows are the same at every stage. |
| BuildIdentity.DecodeUndoesStream | backend/app/build_identity.py:57-65 | The stream has a decoder that undoes it, for arbitrary file contents. |
| BuildIdentity.StreamIsInjective | backend/app/build_identity.py:57-65 | Streams are equal exactly for equal file lists. |
| BuildIdentity.ListingOrderIsIrrelevant | backend/app/build_identity.py:28-43 | The order in which files are enumerated does not matter. |
| BuildIdentity.SourceIdentity | backend/app/build_identity.py:53-65 | The backend's loop produces the stream of its sorted files. |
| BuildIdentity.FrontendIdentity | frontend/scripts/build-identity.ts:25-36 | The frontend's loop, with its own formatting of the mode, produces the stream of its sorted files. |
| BuildIdentity.TwinsAgreeUnlessCrossed | frontend/scripts/build-identity.ts:25-36 | The two streams of the same files are equal exactly when no two paths are ordered differently by code points and by code units. |
| SourcePatch.Package.ApplyPatches | backend/scripts/patch_lark_oapi.py:114-135 | Both loops compute the staged texts and write what changed, dying anywhere. |
| SourcePatch.RefusedExactly | backend/scripts/patch_lark_oapi.py:117-127 | A run is refused exactly when some file cannot take its patches in order, and then no file is written. |
| SourcePatch.ApartSpares | backend/scripts/patch_lark_oapi.py:123-127 | A later patch spares an earlier replacement if its anchor cannot overlap it. |
| SourcePatch.SuccessLeavesReplacements | backend/scripts/patch_lark_oapi.py:114-135 | After a successful run every replacement is present. |
| SourcePatch.TriesConverge | backend/scripts/patch_lark_oapi.py:129-135 | However many runs died between writes, a run that gets through leaves the files of one clean run. |
| SourcePatch.DoneChangesNothing | backend/scripts/patch_lark_oapi.py:129-135 | A run after a completed one changes 0 files. |
| SourcePatch.RerunAcceptedExactly | backend/scripts/patch_lark_oapi.py:117-127 | After a completed run the next run is accepted exactly when the patches of every file apply to the text they leave. |
| SourcePatch.RerunChangesNothingExactly | backend/scripts/patch_lark_oapi.py:129-135 | It changes 0 files exactly when they leave that text as it is. |
| SourcePatch.UndoneDependsOnText | backend/scripts/patch_lark_oapi.py:123-127 | For a list whose second patch destroys what the first put in, a rerun is refused on some texts and accepted with a change on others. |

## Left out

- AuthorityRuns.RunsKeepFrames: assumes what these triggers leave to their environment: tenant and agent of sessions, tenant of runs, and tenant, session, agent, item and sequence of events are written once (parent and child columns of runs may be filled in once), and referenced rows are not deleted. `AuthorityLimits` replaces the assumption on items by its exact condition.
- AuthorityRuns.AcceptedRowIsSound: primary keys are not rewritten; unique and foreign key constraints of the tables are not modelled, the triggers alone carry the result.
- AuthorityWidening.LaterEventAcceptsMore: the constant rule tables of the event trigger are a parameter; the lemma assumes of them only what the admission revision was written against, which is proved of the tables themselves.
- RoundDemands.RunsStayCoherent: that the columns others demand something of are written once is left to the writers; the triggers do not demand it.
- AnchoredRewrite.LoopEditsNamedBranches: works on texts in general; the frozen trigger texts are not reproduced, so that their anchors cannot overlap a header or marker is a condition on them, and the revisions compared in `AuthorityWidening` are predicates, not texts.
- The cast of text to uuid accepts dashes anywhere but no braces.
- RlsScope.RunKeepsScope: savepoints and closing a session without commit or rollback are not modelled; audit logging of bypass scopes is left out.
- AfterCommit.SessionRefinesStack: flush subtransactions and what a callback does when it runs are not modelled.
- JsonText.LoadsUndoesDumps: NaN and infinities are not modelled; numbers, booleans and None as dictionary keys are scalars given by their text, and encoding a tuple key is the encoder's error.
- TenantPolicies.RunsKeepTheirRows: foreign key cascades, which bypass row-level security, are left out, primary keys are not updated, and no claim is made about platform-shared rows.
- TenantPolicies.RunsObserveOwnAndPublic: timing and error texts are not observations of the model.
- AuditSequence.IssuedNumbersRise: the table lock makes a setup one step.
- IndexReplacement.AttemptKeepsIndexed: the transactional part of the migration (constraints, the active-run index, deleted rows) and the columns of the index are left out.
- SchemaCompat.PrefixThenWhole: the offline mode without an inspector is left out; which statements the database refuses for reasons of its own is a parameter.
- ApprovalInvalidation.UndoneExactly: details are JSON values, so the formatting of a json column is not compared; timestamps survive their text form.
- BuildIdentity.DecodeUndoesStream: the walk of the directory tree with its ignored names and symlink errors is a list of paths, the digest is its input stream, and paths that are not Unicode are left out.
- SourcePatch.TriesConverge: a write is atomic, and decoding errors of a file are left out, as is the refresh of the wheel record.
- Deletion of referenced rows, one-row immutability triggers, the remaining migrations, start-up wiring and the user interface would only add easy members.
