/**
 The BEFORE INSERT OR UPDATE trigger on the fourteen authority tables,
 `enforce_session_v2_tenant_binding`, at each of its frozen revisions.
 A guard that is false stands for the trigger's RAISE.
 */
module BindingTrigger {
  import opened Wrappers
  import opened SessionTables

  /** The frozen revisions of the function, in migration order. */
  datatype Revision =
    | Base0716 | InputControl0716 | AdmissionRevision0716 | DelegationRounds1017 | BusinessTaskChild1022
    | BusinessPermissions1022 | DelegationPermissions1022
  {
    function Rank(): nat {
      match this
      case Base0716 => 0
      case InputControl0716 => 1
      case AdmissionRevision0716 => 2
      case DelegationRounds1017 => 3
      case BusinessTaskChild1022 => 4
      case BusinessPermissions1022 => 5
      case DelegationPermissions1022 => 6
    }
  }

  /* ---- Authority of a run over the session of the new row ---- */

  predicate ParentBound(db: Db, run: RuntimeTask, session: Uuid) {
    session in db.sessions
    && run.parentSession == Some(Text(session))
    && run.parentAgent == Some(db.sessions[session].agent)
  }

  /** The session text of a run, in any spelling, denotes exactly `session`. */
  predicate Denotes(text: Option<string>, session: Uuid) {
    text.Some? && Normalize(text.value) == session
  }

  /** The exact child session row of a delegation run. */
  predicate DelegationChild(db: Db, runId: Uuid, run: RuntimeTask, tenant: Uuid, session: Uuid) {
    session in db.sessions
    && var child := db.sessions[session];
    && run.taskType == "delegation"
    && Denotes(run.childSession, session)
    && run.childAgent == Some(child.agent)
    && child.tenant == tenant
    && child.kind == "delegation_run"
    && child.runtimeTask == Some(runId)
    && SqlEq(child.peerAgent, run.parentAgent)
    && SqlEq(child.user, run.rootUser)
    && child.parentSession.Some? && Denotes(run.parentSession, child.parentSession.value)
  }

  /** The exact execution session row of a business task. */
  predicate BusinessTaskChild(db: Db, runId: Uuid, run: RuntimeTask, tenant: Uuid, session: Uuid) {
    session in db.sessions
    && var child := db.sessions[session];
    && run.taskType == "business_task"
    && run.parentAgent == Some(child.agent)
    && SqlEq(run.childAgent, run.parentAgent)
    && Denotes(run.childSession, session)
    && child.tenant == tenant
    && child.kind == "user_task"
    && child.sourceChannel == "task"
    && child.runtimeTask == Some(runId)
    && SqlEq(child.user, run.rootUser)
  }

  /** Which child disjuncts the run condition of a table's branch carries at a revision. */
  datatype RunClause = RunClause(delegation: bool, business: bool)

  /** The run condition for `table`; `permission` says that the row is a permission response. */
  function ClauseFor(rev: Revision, table: Table, permission: bool): RunClause {
    if table in {TurnInputs, ModelResults, ToolInvocations, RoundObligations, NextRoundPlans, RunOutcomes} then
      RunClause(rev.Rank() >= 3, rev.Rank() >= 4)
    else if table == ControlInputs then
      RunClause(rev.Rank() >= 6 && permission, rev.Rank() >= 5 && permission)
    else
      RunClause(false, false)
  }

  predicate RunAuthority(db: Db, clause: RunClause, runId: Uuid, tenant: Uuid, session: Uuid) {
    runId in db.runs
    && var run := db.runs[runId];
    && run.tenant == tenant
    && (ParentBound(db, run, session)
        || (clause.business && BusinessTaskChild(db, runId, run, tenant, session))
        || (clause.delegation && DelegationChild(db, runId, run, tenant, session)))
  }

  /** `COALESCE(NULLIF(metadata->>'turn_id',''), 'turn-' || replace(id::text,'-',''))`. */
  function TurnOf(runId: Uuid, run: RuntimeTask): string {
    if Blank(run.turnId) then "turn-" + runId else run.turnId.value
  }

  predicate RunHasTurn(db: Db, runId: Uuid, turn: string) {
    runId in db.runs && TurnOf(runId, db.runs[runId]) == turn
  }

  /** `event.scope_json->>key` of a stored event. */
  function ScopeField(e: Event, key: string): Option<string> {
    if e.scope.Some? && e.scope.value.JObject? then TextField(e.scope.value.fields, key) else None
  }

  /* ---- The branches ---- */

  predicate OutboxBranch(db: Db, r: Row)
    requires r.OutboxEntry?
  {
    EventInFrame(db, r.event, r.tenant, r.session) && db.events[r.event].sequence == r.sequence
  }

  predicate CommandBranch(db: Db, r: Row)
    requires r.Command?
  {
    r.causation.None? || InFrame(db, Commands, r.causation.value, r.tenant, r.session)
  }

  predicate TurnInputBranch(rev: Revision, db: Db, r: Row)
    requires r.TurnInput?
  {
    && InFrame(db, Commands, r.command, r.tenant, r.session)
    && (r.targetRun.None?
        || RunAuthority(db, ClauseFor(rev, TurnInputs, false), r.targetRun.value, r.tenant, r.session))
    && (r.requestItem.None? || ItemInFrame(db, r.requestItem.value, r.tenant, r.session))
    && (r.forkAfter.None?
        || exists id :: id in db.events && EventInFrame(db, id, r.tenant, r.session) && db.events[id].sequence == r.forkAfter.value)
  }

  /** The admission's hook item, if it has one, is a hook event of the session. */
  predicate HookIsEvent(db: Db, r: Row)
    requires r.Admission?
  {
    r.hookItem.None?
    || exists id :: id in db.events && EventInFrame(db, id, r.tenant, r.session)
         && db.events[id].item == r.hookItem && db.events[id].itemKind == Some("hook")
  }

  predicate AdmissionBranch(rev: Revision, db: Db, r: Row)
    requires r.Admission?
  {
    && InFrame(db, Commands, r.command, r.tenant, r.session)
    && InFrame(db, TurnInputs, r.input, r.tenant, r.session)
    && var input := db.rows[Key(TurnInputs, r.input)];
    && input.TurnInput? && input.command == r.command
    && (rev.Rank() >= 2 ==> 0 < r.inputRevision <= input.revision)
    && HookIsEvent(db, r)
  }

  /** The turn and the round a carry-forward is meant for are there. */
  predicate CarryTarget(db: Db, r: Row)
    requires r.CarryForward?
  {
    && (r.targetTurn.None?
        || (exists k :: k in db.rows && db.rows[k].ModelResult? && db.rows[k].SameFrame(r)
              && db.rows[k].turn == r.targetTurn.value)
        || (exists id :: id in db.events && EventInFrame(db, id, r.tenant, r.session)
              && ScopeField(db.events[id], "turn_id") == r.targetTurn))
    && (r.targetRound.None?
        || (exists k :: k in db.rows && db.rows[k].ModelResult? && db.rows[k].SameFrame(r)
              && Some(db.rows[k].turn) == r.targetTurn && db.rows[k].round == r.targetRound.value))
  }

  predicate CarryForwardBranch(db: Db, r: Row)
    requires r.CarryForward?
  {
    && InFrame(db, InputAdmissions, r.sourceAdmission, r.tenant, r.session)
    && var admission := db.rows[Key(InputAdmissions, r.sourceAdmission)];
    && admission.Admission? && admission.input == r.sourceInput && admission.hookRun == r.sourceHookRun
    && InFrame(db, TurnInputs, admission.input, admission.tenant, admission.session)
    && CarryTarget(db, r)
    && (r.consumedEvent.None?
        || (EventInFrame(db, r.consumedEvent.value, r.tenant, r.session)
            && var e := db.events[r.consumedEvent.value];
            && e.item == Some(r.contextItem)
            && SqlEq(ScopeField(e, "turn_id"), r.targetTurn)
            && SqlEq(ScopeField(e, "round_id"), r.targetRound)))
  }

  predicate ControlInputBranch(rev: Revision, db: Db, r: Row)
    requires r.ControlInput?
  {
    && InFrame(db, Commands, r.command, r.tenant, r.session)
    && RunAuthority(db, ClauseFor(rev, ControlInputs, r.controlKind == "permission_response"),
                    r.expectedRun, r.tenant, r.session)
    && (r.requestItem.None? || ItemInFrame(db, r.requestItem.value, r.tenant, r.session))
  }

  /** The cancel command and control of a replacement saga. */
  predicate CancelAuthority(db: Db, r: Row)
    requires r.TurnReplacement?
  {
    && r.cancelCommand.Some? && r.cancelControl.Some?
    && InFrame(db, Commands, r.cancelCommand.value, r.tenant, r.session)
    && var cancel := db.rows[Key(Commands, r.cancelCommand.value)];
    && cancel.Command? && cancel.causation == Some(r.command) && cancel.namespace == "control_input"
    && InFrame(db, ControlInputs, r.cancelControl.value, r.tenant, r.session)
    && var control := db.rows[Key(ControlInputs, r.cancelControl.value)];
    && control.ControlInput? && control.command == r.cancelCommand.value && control.expectedRun == r.oldRun
  }

  /** What the state of a saga demands of its cancel pair. */
  predicate CancelBranch(rev: Revision, db: Db, r: Row)
    requires r.TurnReplacement?
  {
    if rev.Rank() == 0 then CancelAuthority(db, r)
    else
      || ((r.state == "requested" || (rev.Rank() >= 2 && r.state == "needs_reconciliation"))
          && r.cancelControl.None? && r.cancelCommand.None?)
      || (r.state != "requested" && CancelAuthority(db, r))
  }

  /** What the state of a saga demands of the target of the replacement input. */
  predicate TargetBranch(rev: Revision, r: Row, input: Row)
    requires r.TurnReplacement? && input.TurnInput?
  {
    if rev.Rank() == 0 then input.targetTurn == Some(r.oldTurn) && input.targetRun == Some(r.oldRun)
    else
      || (r.state in {"requested", "cancel_accepted", "old_run_fenced"}
          && input.targetTurn == Some(r.oldTurn) && input.targetRun == Some(r.oldRun))
      || (r.state in {"replacement_queued", "replacement_admitted", "completed", "failed", "needs_reconciliation"}
          && (input.targetTurn == Some(r.oldTurn) || input.targetTurn == Some(r.replacementTurn)))
  }

  predicate AdmittedBranch(rev: Revision, db: Db, r: Row, input: Row, parent: Uuid)
    requires r.TurnReplacement? && input.TurnInput?
  {
    exists k ::
      && k in db.rows && db.rows[k].Admission? && db.rows[k].SameFrame(r)
      && db.rows[k].input == r.replacementInput && db.rows[k].command == parent
      && db.rows[k].state == "admitted"
      && (rev.Rank() >= 2 ==> db.rows[k].inputRevision == input.revision)
  }

  /** The saga's command, the human command that caused it, the replacement input and its admission. */
  predicate SagaChain(rev: Revision, db: Db, r: Row)
    requires r.TurnReplacement?
  {
    && InFrame(db, Commands, r.command, r.tenant, r.session)
    && var saga := db.rows[Key(Commands, r.command)];
    && saga.Command? && saga.namespace == "turn_replacement" && saga.causation.Some?
    && InFrame(db, Commands, saga.causation.value, r.tenant, r.session)
    && var parent := db.rows[Key(Commands, saga.causation.value)];
    && parent.Command? && parent.namespace == "human_input" && parent.commandKind == "interrupt_and_replace"
    && InFrame(db, TurnInputs, r.replacementInput, r.tenant, r.session)
    && var input := db.rows[Key(TurnInputs, r.replacementInput)];
    && input.TurnInput? && input.command == saga.causation.value && input.intent == "interrupt_and_replace"
    && TargetBranch(rev, r, input)
    && AdmittedBranch(rev, db, r, input, saga.causation.value)
  }

  predicate ReplacementBranch(rev: Revision, db: Db, r: Row)
    requires r.TurnReplacement?
  {
    && SagaChain(rev, db, r)
    && CancelBranch(rev, db, r)
    && RunAuthority(db, ClauseFor(rev, TurnReplacements, false), r.oldRun, r.tenant, r.session)
    && RunHasTurn(db, r.oldRun, r.oldTurn)
    && (r.lastEvent.None? || EventInFrame(db, r.lastEvent.value, r.tenant, r.session))
  }

  predicate ToolInvocationBranch(rev: Revision, db: Db, id: Uuid, r: Row)
    requires r.ToolInvocation?
  {
    && RunAuthority(db, ClauseFor(rev, ToolInvocations, false), r.run, r.tenant, r.session)
    && (exists k :: k in db.rows && db.rows[k].ModelResult? && db.rows[k].SameFrame(r)
          && db.rows[k].run == r.run && db.rows[k].round == r.round)
    && (r.resultEvent.None?
        || (EventInFrame(db, r.resultEvent.value, r.tenant, r.session)
            && var e := db.events[r.resultEvent.value];
            && e.itemKind == Some("tool_result") && e.lifecycle == Some("completed")
            && e.invocation == Some(id) && e.providerToolUse == Some(r.providerToolUse)
            && e.run == Some(r.run) && ScopeField(e, "round_id") == Some(r.round)))
  }

  predicate AllInFrame(db: Db, table: Table, ids: IdArray, tenant: Uuid, session: Uuid) {
    ids.Ids?
    && forall i :: 0 <= i < |ids.elements| ==>
         ids.elements[i].Some? && InFrame(db, table, ids.elements[i].value, tenant, session)
  }

  predicate ModelResultBranch(rev: Revision, db: Db, id: Uuid, r: Row)
    requires r.ModelResult?
  {
    && RunAuthority(db, ClauseFor(rev, ModelResults, false), r.run, r.tenant, r.session)
    && RunHasTurn(db, r.run, r.turn)
    && AllInFrame(db, TurnInputs, r.boundInputs, r.tenant, r.session)
    && (r.committedEvent.None?
        || (EventInFrame(db, r.committedEvent.value, r.tenant, r.session)
            && var e := db.events[r.committedEvent.value];
            && e.result == Some(id) && e.run == Some(r.run)
            && ScopeField(e, "turn_id") == Some(r.turn) && ScopeField(e, "round_id") == Some(r.round)))
  }

  /** A model result of the same frame and run. */
  predicate ResultOfRun(db: Db, resultId: Uuid, r: Row, run: Uuid) {
    InFrame(db, ModelResults, resultId, r.tenant, r.session)
    && db.rows[Key(ModelResults, resultId)].ModelResult?
    && db.rows[Key(ModelResults, resultId)].run == run
  }

  predicate ObligationBranch(rev: Revision, db: Db, r: Row)
    requires r.RoundObligation?
  {
    && RunAuthority(db, ClauseFor(rev, RoundObligations, false), r.run, r.tenant, r.session)
    && ResultOfRun(db, r.sourceResult, r, r.run)
    && db.rows[Key(ModelResults, r.sourceResult)].turn == r.turn
  }

  /** An obligation of the plan's run and result. */
  predicate ObligationOfPlan(db: Db, r: Row, element: Option<Uuid>)
    requires r.NextRoundPlan?
  {
    && element.Some? && InFrame(db, RoundObligations, element.value, r.tenant, r.session)
    && var o := db.rows[Key(RoundObligations, element.value)];
    && o.RoundObligation? && o.run == r.run && o.sourceResult == r.sourceResult
  }

  predicate PlanBranch(rev: Revision, db: Db, r: Row)
    requires r.NextRoundPlan?
  {
    && RunAuthority(db, ClauseFor(rev, NextRoundPlans, false), r.run, r.tenant, r.session)
    && ResultOfRun(db, r.sourceResult, r, r.run)
    && r.obligations.Ids?
    && forall i :: 0 <= i < |r.obligations.elements| ==> ObligationOfPlan(db, r, r.obligations.elements[i])
  }

  predicate OutcomeBranch(rev: Revision, db: Db, r: Row)
    requires r.RunOutcome?
  {
    && RunAuthority(db, ClauseFor(rev, RunOutcomes, false), r.run, r.tenant, r.session)
    && ResultOfRun(db, r.terminalResult, r, r.run)
    && db.rows[Key(ModelResults, r.terminalResult)].turn == r.turn
    && (r.terminalEvent.None?
        || (EventInFrame(db, r.terminalEvent.value, r.tenant, r.session)
            && var e := db.events[r.terminalEvent.value];
            && e.result == Some(r.terminalResult) && e.run == Some(r.run)
            && ScopeField(e, "turn_id") == Some(r.turn)))
  }

  predicate FeedbackBranch(db: Db, r: Row)
    requires r.FeedbackAggregate?
  {
    && (exists id :: id in db.events && EventInFrame(db, id, r.tenant, r.session) && db.events[id].item == Some(r.targetItem)
          && (r.targetResult.None? || db.events[id].result == r.targetResult))
    && (r.targetResult.None? || InFrame(db, ModelResults, r.targetResult.value, r.tenant, r.session))
    && (exists id :: id in db.events && EventInFrame(db, id, r.tenant, r.session) && db.events[id].item == Some(r.lastMutationItem)
          && db.events[id].itemKind == Some("evaluation_feedback_mutation"))
  }

  predicate Branch(rev: Revision, db: Db, id: Uuid, r: Row) {
    match r
    case EventCursor(_, _) => true
    case OutboxEntry(_, _, _, _) => OutboxBranch(db, r)
    case Command(_, _, _, _, _) => CommandBranch(db, r)
    case TurnInput(_, _, _, _, _, _, _, _, _) => TurnInputBranch(rev, db, r)
    case Admission(_, _, _, _, _, _, _, _) => AdmissionBranch(rev, db, r)
    case CarryForward(_, _, _, _, _, _, _, _, _) => CarryForwardBranch(db, r)
    case ControlInput(_, _, _, _, _, _) => ControlInputBranch(rev, db, r)
    case TurnReplacement(_, _, _, _, _, _, _, _, _, _, _) => ReplacementBranch(rev, db, r)
    case ToolInvocation(_, _, _, _, _, _) => ToolInvocationBranch(rev, db, id, r)
    case ModelResult(_, _, _, _, _, _, _) => ModelResultBranch(rev, db, id, r)
    case RoundObligation(_, _, _, _, _) => ObligationBranch(rev, db, r)
    case NextRoundPlan(_, _, _, _, _) => PlanBranch(rev, db, r)
    case RunOutcome(_, _, _, _, _, _) => OutcomeBranch(rev, db, r)
    case FeedbackAggregate(_, _, _, _, _) => FeedbackBranch(db, r)
  }

  /** The row's session exists and has the row's tenant. */
  predicate TenantBound(db: Db, r: Row) {
    r.session in db.sessions && r.tenant == db.sessions[r.session].tenant
  }

  /** The whole trigger; `prior` is None for INSERT. */
  predicate BindingAccepts(rev: Revision, db: Db, prior: Option<Row>, id: Uuid, r: Row) {
    && (prior.Some? ==> r.SameFrame(prior.value))
    && TenantBound(db, r)
    && Branch(rev, db, id, r)
  }
}
