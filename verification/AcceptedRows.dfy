/**
 Exactly which rows the binding trigger accepts, said without its branches: a row is let through if
 and only if its references stay in its frame, what it demands of other rows, runs and events holds,
 the run it names serves its session, and what is particular to its table holds. The first two are
 the invariants of whole runs, so acceptance is what keeps them and no more than that and the rest.
 */
module AcceptedRows {
  import opened Wrappers
  import opened SessionTables
  import opened BindingTrigger
  import opened AuthorityRuns
  import opened RoundDemands

  /* ---- The run of a row ---- */

  /** The run a row's authority rests on. */
  function ServingRun(r: Row): Option<Uuid> {
    match r
    case TurnInput(_, _, _, _, _, targetRun, _, _, _) => targetRun
    case ControlInput(_, _, _, _, run, _) => Some(run)
    case TurnReplacement(_, _, _, _, run, _, _, _, _, _, _) => Some(run)
    case ToolInvocation(_, _, run, _, _, _) => Some(run)
    case ModelResult(_, _, _, run, _, _, _) => Some(run)
    case RoundObligation(_, _, _, run, _) => Some(run)
    case NextRoundPlan(_, _, run, _, _) => Some(run)
    case RunOutcome(_, _, _, run, _, _) => Some(run)
    case _ => None
  }

  /** The run was started from the session, by the session's agent. */
  predicate StartedFrom(run: RuntimeTask, own: ChatSession, session: Uuid) {
    run.parentSession == Some(Text(session)) && run.parentAgent == Some(own.agent)
  }

  /** The session was opened for the run: the two name each other, the tenant and the user. */
  predicate OpenedFor(runId: Uuid, run: RuntimeTask, own: ChatSession, session: Uuid) {
    && own.runtimeTask == Some(runId)
    && run.childSession.Some? && Normalize(run.childSession.value) == session
    && own.tenant == run.tenant
    && own.user.Some? && run.rootUser == own.user
  }

  /** The child session of a delegation, between the two agents, opened from the parent session. */
  predicate DelegatedTo(runId: Uuid, run: RuntimeTask, own: ChatSession, session: Uuid) {
    && OpenedFor(runId, run, own, session)
    && run.taskType == "delegation" && own.kind == "delegation_run"
    && run.childAgent == Some(own.agent)
    && own.peerAgent.Some? && run.parentAgent == own.peerAgent
    && own.parentSession.Some? && run.parentSession.Some?
    && Normalize(run.parentSession.value) == own.parentSession.value
  }

  /** The execution session of a business task, of one agent. */
  predicate ExecutedIn(runId: Uuid, run: RuntimeTask, own: ChatSession, session: Uuid) {
    && OpenedFor(runId, run, own, session)
    && run.taskType == "business_task" && own.kind == "user_task" && own.sourceChannel == "task"
    && run.childAgent == Some(own.agent) && run.parentAgent == Some(own.agent)
  }

  /** The rows a run may write into a session that was opened for it. */
  predicate RoundRow(r: Row) {
    r.TurnInput? || r.ToolInvocation? || r.ModelResult? || r.RoundObligation? || r.NextRoundPlan? || r.RunOutcome?
  }

  predicate PermissionResponse(r: Row) {
    r.ControlInput? && r.controlKind == "permission_response"
  }

  /** The revisions that open the rounds and the permission responses of each kind of child session. */
  predicate RoundsOfDelegations(rev: Revision) {
    rev == DelegationRounds1017 || RoundsOfTasks(rev)
  }

  predicate RoundsOfTasks(rev: Revision) {
    rev == BusinessTaskChild1022 || PermissionsOfTasks(rev)
  }

  predicate PermissionsOfTasks(rev: Revision) {
    rev == BusinessPermissions1022 || PermissionsOfDelegations(rev)
  }

  predicate PermissionsOfDelegations(rev: Revision) {
    rev == DelegationPermissions1022
  }

  /** The revisions that look at the revision of an input. */
  predicate Revisioned(rev: Revision) {
    rev != Base0716 && rev != InputControl0716
  }

  /** The run serves the row's session at a revision. */
  predicate Serves(rev: Revision, db: Db, runId: Uuid, r: Row) {
    && runId in db.runs && r.session in db.sessions
    && var run, own := db.runs[runId], db.sessions[r.session];
    && run.tenant == r.tenant
    && (|| StartedFrom(run, own, r.session)
        || (DelegatedTo(runId, run, own, r.session)
            && ((RoundRow(r) && RoundsOfDelegations(rev)) || (PermissionResponse(r) && PermissionsOfDelegations(rev))))
        || (ExecutedIn(runId, run, own, r.session)
            && ((RoundRow(r) && RoundsOfTasks(rev)) || (PermissionResponse(r) && PermissionsOfTasks(rev)))))
  }

  predicate Served(rev: Revision, db: Db, r: Row) {
    ServingRun(r).Some? ==> Serves(rev, db, ServingRun(r).value, r)
  }

  /** The run condition of the trigger is that the run serves the session. */
  lemma ServesExactly(rev: Revision, db: Db, runId: Uuid, r: Row)
    requires ServingRun(r) == Some(runId) && TenantBound(db, r)
    ensures RunAuthority(db, ClauseFor(rev, r.TableOf(), PermissionResponse(r)), runId, r.tenant, r.session)
            <==> Serves(rev, db, runId, r)
  {
  }

  /* ---- What is particular to a table ---- */

  /** Some event of the row's session. */
  predicate SessionEvent(db: Db, r: Row, id: Uuid) {
    id in db.events && db.events[id].tenant == r.tenant && db.events[id].session == r.session
  }

  ghost predicate ForkPointExists(db: Db, r: Row)
    requires r.TurnInput?
  {
    r.forkAfter.Some? ==> exists id :: SessionEvent(db, r, id) && Some(db.events[id].sequence) == r.forkAfter
  }

  ghost predicate HookRan(db: Db, r: Row)
    requires r.Admission?
  {
    r.hookItem.Some? ==>
      exists id :: SessionEvent(db, r, id) && db.events[id].item == r.hookItem && db.events[id].itemKind == Some("hook")
  }

  /** From the admission revision on, the admitted revision is one the input has reached. */
  predicate RevisionReached(rev: Revision, db: Db, r: Row)
    requires r.Admission?
  {
    Revisioned(rev) ==>
      && Key(TurnInputs, r.input) in db.rows && db.rows[Key(TurnInputs, r.input)].TurnInput?
      && 1 <= r.inputRevision <= db.rows[Key(TurnInputs, r.input)].revision
  }

  /** A model result of the row's session. */
  predicate SessionResult(db: Db, r: Row, k: Key) {
    k in db.rows && db.rows[k].ModelResult? && db.rows[k].tenant == r.tenant && db.rows[k].session == r.session
  }

  /** The turn a carry-forward is meant for was begun, and its round produced a result. */
  ghost predicate TargetBegun(db: Db, r: Row)
    requires r.CarryForward?
  {
    && (r.targetTurn.Some? ==>
          || (exists k :: SessionResult(db, r, k) && Some(db.rows[k].turn) == r.targetTurn)
          || (exists id :: SessionEvent(db, r, id) && ScopeField(db.events[id], "turn_id") == r.targetTurn))
    && (r.targetRound.Some? ==>
          && r.targetTurn.Some?
          && exists k :: SessionResult(db, r, k) && Some(db.rows[k].turn) == r.targetTurn
                         && Some(db.rows[k].round) == r.targetRound)
  }

  /** The command at `id`, with its namespace. */
  predicate CommandOf(db: Db, id: Uuid, namespace: string) {
    && Key(Commands, id) in db.rows && db.rows[Key(Commands, id)].Command?
    && db.rows[Key(Commands, id)].namespace == namespace
  }

  /** The replacement input asks for an interruption, and so does the human command it came with. */
  predicate HumanInterrupts(db: Db, r: Row)
    requires r.TurnReplacement?
  {
    && CommandOf(db, r.command, "turn_replacement")
    && Key(TurnInputs, r.replacementInput) in db.rows
    && var input := db.rows[Key(TurnInputs, r.replacementInput)];
    && input.TurnInput? && input.intent == "interrupt_and_replace"
    && InFrame(db, Commands, input.command, r.tenant, r.session)
    && CommandOf(db, input.command, "human_input")
    && db.rows[Key(Commands, input.command)].commandKind == "interrupt_and_replace"
  }

  /** The input was admitted, from the admission revision on in its present revision. */
  ghost predicate InputAdmitted(rev: Revision, db: Db, r: Row, input: Row)
    requires r.TurnReplacement? && input.TurnInput?
  {
    exists k ::
      && k in db.rows && db.rows[k].Admission? && db.rows[k].tenant == r.tenant && db.rows[k].session == r.session
      && db.rows[k].input == r.replacementInput && db.rows[k].command == input.command
      && db.rows[k].state == "admitted" && (!Revisioned(rev) || db.rows[k].inputRevision == input.revision)
  }

  /** At which states the saga may still, or must already, have left the old turn and be without its cancel pair. */
  predicate StateFits(rev: Revision, db: Db, r: Row, input: Row)
    requires r.TurnReplacement? && input.TurnInput?
  {
    var onOldRun := input.targetTurn == Some(r.oldTurn) && input.targetRun == Some(r.oldRun);
    var onEitherTurn := input.targetTurn == Some(r.oldTurn) || input.targetTurn == Some(r.replacementTurn);
    var named := r.cancelCommand.Some? && r.cancelControl.Some? && CommandOf(db, r.cancelCommand.value, "control_input");
    var unnamed := r.cancelCommand.None? && r.cancelControl.None?;
    if rev == Base0716 then onOldRun && named
    else match r.state
      case "requested" => onOldRun && unnamed
      case "cancel_accepted" => onOldRun && named
      case "old_run_fenced" => onOldRun && named
      case "replacement_queued" => onEitherTurn && named
      case "replacement_admitted" => onEitherTurn && named
      case "completed" => onEitherTurn && named
      case "failed" => onEitherTurn && named
      case "needs_reconciliation" => onEitherTurn && (named || (Revisioned(rev) && unnamed))
      case _ => false
  }

  ghost predicate SagaFits(rev: Revision, db: Db, r: Row)
    requires r.TurnReplacement?
  {
    && HumanInterrupts(db, r)
    && var input := db.rows[Key(TurnInputs, r.replacementInput)];
    InputAdmitted(rev, db, r, input) && StateFits(rev, db, r, input)
  }

  predicate AnsweredBy(db: Db, r: Row)
    requires r.ToolInvocation?
  {
    r.resultEvent.Some? ==>
      r.resultEvent.value in db.events && db.events[r.resultEvent.value].providerToolUse == Some(r.providerToolUse)
  }

  predicate CommittedBy(db: Db, id: Uuid, r: Row)
    requires r.ModelResult?
  {
    r.committedEvent.Some? ==>
      && r.committedEvent.value in db.events
      && var e := db.events[r.committedEvent.value];
      && e.result == Some(id) && e.run == Some(r.run)
      && ScopeField(e, "turn_id") == Some(r.turn) && ScopeField(e, "round_id") == Some(r.round)
  }

  ghost predicate FeedbackGiven(db: Db, r: Row)
    requires r.FeedbackAggregate?
  {
    && (exists id :: SessionEvent(db, r, id) && db.events[id].item == Some(r.targetItem)
                     && (r.targetResult.Some? ==> db.events[id].result == r.targetResult))
    && (exists id :: SessionEvent(db, r, id) && db.events[id].item == Some(r.lastMutationItem)
                     && db.events[id].itemKind == Some("evaluation_feedback_mutation"))
  }

  ghost predicate Particular(rev: Revision, db: Db, id: Uuid, r: Row) {
    match r
    case OutboxEntry(_, _, event, sequence) => event in db.events && db.events[event].sequence == sequence
    case TurnInput(_, _, _, _, _, _, _, _, _) => ForkPointExists(db, r)
    case Admission(_, _, _, _, _, _, _, _) => HookRan(db, r) && RevisionReached(rev, db, r)
    case CarryForward(_, _, _, _, _, _, _, _, _) => TargetBegun(db, r)
    case TurnReplacement(_, _, _, _, _, _, _, _, _, _, _) => SagaFits(rev, db, r)
    case ToolInvocation(_, _, _, _, _, _) => AnsweredBy(db, r)
    case ModelResult(_, _, _, _, _, _, _) => CommittedBy(db, id, r)
    case FeedbackAggregate(_, _, _, _, _) => FeedbackGiven(db, r)
    case _ => true
  }

  /* ---- Acceptance ---- */

  ghost predicate DemandsMet(db: Db, id: Uuid, r: Row) {
    forall d :: Demands(id, r, d) ==> Met(db, d)
  }

  /** What the row must be like, whatever was there before. */
  ghost predicate Fits(rev: Revision, db: Db, id: Uuid, r: Row) {
    References(db, r) && DemandsMet(db, id, r) && Served(rev, db, r) && Particular(rev, db, id, r)
  }

  lemma MetDemand(db: Db, id: Uuid, r: Row, d: Demand)
    requires DemandsMet(db, id, r) && Demands(id, r, d)
    ensures Met(db, d)
  {
  }

  lemma MetFact(db: Db, id: Uuid, r: Row, event: Uuid, fact: Fact)
    requires DemandsMet(db, id, r) && Demands(id, r, EventIs(event, fact))
    ensures event in db.events && HasFact(db.events[event], fact)
  {
    MetDemand(db, id, r, EventIs(event, fact));
  }

  lemma PlainFits(rev: Revision, db: Db, id: Uuid, r: Row)
    requires TenantBound(db, r) && Fits(rev, db, id, r)
    requires r.EventCursor? || r.OutboxEntry? || r.Command? || r.FeedbackAggregate?
    ensures Branch(rev, db, id, r)
  {
    if r.FeedbackAggregate? {
      var e :| SessionEvent(db, r, e) && db.events[e].item == Some(r.targetItem)
        && (r.targetResult.Some? ==> db.events[e].result == r.targetResult);
      assert EventInFrame(db, e, r.tenant, r.session);
      var m :| SessionEvent(db, r, m) && db.events[m].item == Some(r.lastMutationItem)
        && db.events[m].itemKind == Some("evaluation_feedback_mutation");
      assert EventInFrame(db, m, r.tenant, r.session);
    }
  }

  lemma InputFits(rev: Revision, db: Db, id: Uuid, r: Row)
    requires TenantBound(db, r) && Fits(rev, db, id, r) && (r.TurnInput? || r.ControlInput?)
    ensures Branch(rev, db, id, r)
  {
    if ServingRun(r).Some? { ServesExactly(rev, db, ServingRun(r).value, r); }
    if r.TurnInput? && r.forkAfter.Some? {
      var e :| SessionEvent(db, r, e) && Some(db.events[e].sequence) == r.forkAfter;
      assert EventInFrame(db, e, r.tenant, r.session);
    }
  }

  lemma AdmissionFits(rev: Revision, db: Db, id: Uuid, r: Row)
    requires TenantBound(db, r) && Fits(rev, db, id, r) && r.Admission?
    ensures Branch(rev, db, id, r)
  {
    MetDemand(db, id, r, InputCommand(r.input, r.command));
    if r.hookItem.Some? {
      var e :| SessionEvent(db, r, e) && db.events[e].item == r.hookItem && db.events[e].itemKind == Some("hook");
      assert EventInFrame(db, e, r.tenant, r.session);
    }
  }

  lemma TargetExactly(db: Db, r: Row)
    requires r.CarryForward?
    ensures CarryTarget(db, r) <==> TargetBegun(db, r)
  {
    if TargetBegun(db, r) {
      if k :| SessionResult(db, r, k) && Some(db.rows[k].turn) == r.targetTurn {
        assert db.rows[k].SameFrame(r);
      }
      if e :| SessionEvent(db, r, e) && ScopeField(db.events[e], "turn_id") == r.targetTurn {
        assert EventInFrame(db, e, r.tenant, r.session);
      }
      if k :| SessionResult(db, r, k) && Some(db.rows[k].turn) == r.targetTurn && Some(db.rows[k].round) == r.targetRound {
        assert db.rows[k].SameFrame(r);
      }
    }
    if CarryTarget(db, r) { BegunTarget(db, r); }
  }

  lemma BegunTarget(db: Db, r: Row)
    requires r.CarryForward? && CarryTarget(db, r)
    ensures TargetBegun(db, r)
  {
    if k :| k in db.rows && db.rows[k].ModelResult? && db.rows[k].SameFrame(r) && Some(db.rows[k].turn) == r.targetTurn {
      assert SessionResult(db, r, k);
    }
    if e :| e in db.events && EventInFrame(db, e, r.tenant, r.session)
            && ScopeField(db.events[e], "turn_id") == r.targetTurn {
      assert SessionEvent(db, r, e);
    }
    if k :| k in db.rows && db.rows[k].ModelResult? && db.rows[k].SameFrame(r)
            && Some(db.rows[k].turn) == r.targetTurn && Some(db.rows[k].round) == r.targetRound {
      assert SessionResult(db, r, k);
    }
  }

  lemma ConsumedFits(db: Db, id: Uuid, r: Row, event: Uuid)
    requires r.CarryForward? && r.consumedEvent == Some(event) && References(db, r) && DemandsMet(db, id, r)
    ensures EventInFrame(db, event, r.tenant, r.session) && db.events[event].item == Some(r.contextItem)
    ensures SqlEq(ScopeField(db.events[event], "turn_id"), r.targetTurn)
    ensures SqlEq(ScopeField(db.events[event], "round_id"), r.targetRound)
  {
    MetDemand(db, id, r, Holds(r.targetTurn.Some? && r.targetRound.Some?));
    MetFact(db, id, r, event, OfItem(r.contextItem));
    MetFact(db, id, r, event, OfTurn(r.targetTurn.value));
    MetFact(db, id, r, event, OfRound(r.targetRound.value));
  }

  lemma SourceFits(db: Db, id: Uuid, r: Row)
    requires r.CarryForward? && References(db, r) && DemandsMet(db, id, r)
    ensures InFrame(db, InputAdmissions, r.sourceAdmission, r.tenant, r.session)
    ensures var admission := db.rows[Key(InputAdmissions, r.sourceAdmission)];
            && admission.Admission? && admission.input == r.sourceInput && admission.hookRun == r.sourceHookRun
            && InFrame(db, TurnInputs, admission.input, admission.tenant, admission.session)
  {
    MetDemand(db, id, r, AdmissionInput(r.sourceAdmission, r.sourceInput));
    MetDemand(db, id, r, AdmissionHook(r.sourceAdmission, r.sourceHookRun));
  }

  lemma CarryFits(rev: Revision, db: Db, id: Uuid, r: Row)
    requires TenantBound(db, r) && Fits(rev, db, id, r) && r.CarryForward?
    ensures Branch(rev, db, id, r)
  {
    TargetExactly(db, r);
    SourceFits(db, id, r);
    if r.consumedEvent.Some? { ConsumedFits(db, id, r, r.consumedEvent.value); }
    assert CarryForwardBranch(db, r);
  }

  lemma PairFits(db: Db, id: Uuid, r: Row, cancel: Uuid, control: Uuid)
    requires r.TurnReplacement? && r.cancelCommand == Some(cancel) && r.cancelControl == Some(control)
    requires References(db, r) && DemandsMet(db, id, r) && CommandOf(db, cancel, "control_input")
    ensures CancelAuthority(db, r)
  {
    MetDemand(db, id, r, CommandCause(cancel, r.command));
    MetDemand(db, id, r, ControlOf(control, cancel, r.oldRun));
  }

  lemma CancelFits(rev: Revision, db: Db, id: Uuid, r: Row, input: Row)
    requires r.TurnReplacement? && References(db, r) && DemandsMet(db, id, r)
    requires input.TurnInput? && StateFits(rev, db, r, input)
    ensures CancelBranch(rev, db, r)
  {
    if r.cancelCommand.Some? && r.cancelControl.Some? {
      PairFits(db, id, r, r.cancelCommand.value, r.cancelControl.value);
    }
  }

  lemma TargetFits(rev: Revision, db: Db, r: Row, input: Row)
    requires r.TurnReplacement? && input.TurnInput? && StateFits(rev, db, r, input)
    ensures TargetBranch(rev, r, input)
  {
  }

  lemma ChainFits(rev: Revision, db: Db, id: Uuid, r: Row)
    requires r.TurnReplacement? && References(db, r) && DemandsMet(db, id, r) && SagaFits(rev, db, r)
    ensures SagaChain(rev, db, r)
  {
    MetDemand(db, id, r, SagaCause(r.command, r.replacementInput));
    var input := db.rows[Key(TurnInputs, r.replacementInput)];
    TargetFits(rev, db, r, input);
    var k :| k in db.rows && db.rows[k].Admission? && db.rows[k].tenant == r.tenant && db.rows[k].session == r.session
      && db.rows[k].input == r.replacementInput && db.rows[k].command == input.command
      && db.rows[k].state == "admitted" && (!Revisioned(rev) || db.rows[k].inputRevision == input.revision);
    assert db.rows[k].SameFrame(r);
  }

  lemma ReplacementFits(rev: Revision, db: Db, id: Uuid, r: Row)
    requires TenantBound(db, r) && Fits(rev, db, id, r) && r.TurnReplacement?
    ensures Branch(rev, db, id, r)
  {
    ChainFits(rev, db, id, r);
    CancelFits(rev, db, id, r, db.rows[Key(TurnInputs, r.replacementInput)]);
    ServesExactly(rev, db, r.oldRun, r);
    MetDemand(db, id, r, RunTurn(r.oldRun, r.oldTurn));
  }

  lemma AnswerFits(db: Db, id: Uuid, r: Row, event: Uuid)
    requires r.ToolInvocation? && r.resultEvent == Some(event) && References(db, r) && DemandsMet(db, id, r)
    ensures EventInFrame(db, event, r.tenant, r.session)
    ensures var e := db.events[event];
            && e.itemKind == Some("tool_result") && e.lifecycle == Some("completed") && e.invocation == Some(id)
            && e.run == Some(r.run) && ScopeField(e, "round_id") == Some(r.round)
  {
    MetFact(db, id, r, event, IsToolResult);
    MetFact(db, id, r, event, OfInvocation(id));
    MetFact(db, id, r, event, OfRun(r.run));
    MetFact(db, id, r, event, OfRound(r.round));
  }

  lemma RoundFits(db: Db, id: Uuid, r: Row) returns (k: Key)
    requires r.ToolInvocation? && DemandsMet(db, id, r)
    ensures k in db.rows && db.rows[k].ModelResult? && db.rows[k].SameFrame(r)
            && db.rows[k].run == r.run && db.rows[k].round == r.round
  {
    var d := SomeResult(r.tenant, r.session, r.run, r.round);
    assert Demands(id, r, d);
    k :| k in db.rows && IsWitness(db.rows[k], d);
  }

  lemma InvocationFits(rev: Revision, db: Db, id: Uuid, r: Row)
    requires TenantBound(db, r) && Fits(rev, db, id, r) && r.ToolInvocation?
    ensures Branch(rev, db, id, r)
  {
    ServesExactly(rev, db, r.run, r);
    var k := RoundFits(db, id, r);
    if r.resultEvent.Some? { AnswerFits(db, id, r, r.resultEvent.value); }
    assert ToolInvocationBranch(rev, db, id, r);
  }

  lemma ResultFits(rev: Revision, db: Db, id: Uuid, r: Row)
    requires TenantBound(db, r) && Fits(rev, db, id, r) && r.ModelResult?
    ensures Branch(rev, db, id, r)
  {
    ServesExactly(rev, db, r.run, r);
    MetDemand(db, id, r, RunTurn(r.run, r.turn));
  }

  lemma ObligationFits(rev: Revision, db: Db, id: Uuid, r: Row)
    requires TenantBound(db, r) && Fits(rev, db, id, r) && r.RoundObligation?
    ensures Branch(rev, db, id, r)
  {
    ServesExactly(rev, db, r.run, r);
    MetDemand(db, id, r, ResultRun(r.sourceResult, r.run));
    MetDemand(db, id, r, ResultTurn(r.sourceResult, r.turn));
  }

  lemma PlanFits(rev: Revision, db: Db, id: Uuid, r: Row)
    requires TenantBound(db, r) && Fits(rev, db, id, r) && r.NextRoundPlan?
    ensures Branch(rev, db, id, r)
  {
    ServesExactly(rev, db, r.run, r);
    MetDemand(db, id, r, ResultRun(r.sourceResult, r.run));
    forall i | 0 <= i < |r.obligations.elements| ensures ObligationOfPlan(db, r, r.obligations.elements[i]) {
      var o := r.obligations.elements[i].value;
      MetDemand(db, id, r, ObligationRun(o, r.run));
      MetDemand(db, id, r, ObligationFrom(o, r.sourceResult));
    }
  }

  lemma OutcomeFits(rev: Revision, db: Db, id: Uuid, r: Row)
    requires TenantBound(db, r) && Fits(rev, db, id, r) && r.RunOutcome?
    ensures Branch(rev, db, id, r)
  {
    ServesExactly(rev, db, r.run, r);
    MetDemand(db, id, r, ResultRun(r.terminalResult, r.run));
    MetDemand(db, id, r, ResultTurn(r.terminalResult, r.turn));
    if r.terminalEvent.Some? {
      MetFact(db, id, r, r.terminalEvent.value, OfResult(r.terminalResult));
      MetFact(db, id, r, r.terminalEvent.value, OfRun(r.run));
      MetFact(db, id, r, r.terminalEvent.value, OfTurn(r.turn));
    }
  }

  lemma FittingInputIsAccepted(rev: Revision, db: Db, id: Uuid, r: Row)
    requires TenantBound(db, r) && Fits(rev, db, id, r)
    requires r.TurnInput? || r.ControlInput? || r.Admission? || r.CarryForward? || r.TurnReplacement?
    ensures Branch(rev, db, id, r)
  {
    if r.TurnInput? || r.ControlInput? {
      InputFits(rev, db, id, r);
    } else if r.Admission? {
      AdmissionFits(rev, db, id, r);
    } else if r.CarryForward? {
      CarryFits(rev, db, id, r);
    } else {
      ReplacementFits(rev, db, id, r);
    }
  }

  lemma FittingResultIsAccepted(rev: Revision, db: Db, id: Uuid, r: Row)
    requires TenantBound(db, r) && Fits(rev, db, id, r)
    requires r.ToolInvocation? || r.ModelResult? || r.RoundObligation? || r.NextRoundPlan? || r.RunOutcome?
    ensures Branch(rev, db, id, r)
  {
    if r.ToolInvocation? {
      InvocationFits(rev, db, id, r);
    } else if r.ModelResult? {
      ResultFits(rev, db, id, r);
    } else if r.RoundObligation? {
      ObligationFits(rev, db, id, r);
    } else if r.NextRoundPlan? {
      PlanFits(rev, db, id, r);
    } else {
      OutcomeFits(rev, db, id, r);
    }
  }

  lemma FittingIsAccepted(rev: Revision, db: Db, id: Uuid, r: Row)
    requires TenantBound(db, r) && Fits(rev, db, id, r)
    ensures Branch(rev, db, id, r)
  {
    if r.TurnInput? || r.ControlInput? || r.Admission? || r.CarryForward? || r.TurnReplacement? {
      FittingInputIsAccepted(rev, db, id, r);
    } else if r.ToolInvocation? || r.ModelResult? || r.RoundObligation? || r.NextRoundPlan? || r.RunOutcome? {
      FittingResultIsAccepted(rev, db, id, r);
    } else {
      PlainFits(rev, db, id, r);
    }
  }

  /* ---- And nothing else ---- */

  lemma AcceptedIsServed(rev: Revision, db: Db, id: Uuid, r: Row)
    requires TenantBound(db, r) && Branch(rev, db, id, r)
    ensures Served(rev, db, r)
  {
    if ServingRun(r).Some? { ServesExactly(rev, db, ServingRun(r).value, r); }
  }

  lemma AcceptedInputIsParticular(rev: Revision, db: Db, id: Uuid, r: Row)
    requires Branch(rev, db, id, r) && (r.TurnInput? || r.Admission?)
    ensures Particular(rev, db, id, r)
  {
    if r.TurnInput? && r.forkAfter.Some? {
      var e :| e in db.events && EventInFrame(db, e, r.tenant, r.session) && db.events[e].sequence == r.forkAfter.value;
      assert SessionEvent(db, r, e);
    }
    if r.Admission? && r.hookItem.Some? {
      var e :| e in db.events && EventInFrame(db, e, r.tenant, r.session)
        && db.events[e].item == r.hookItem && db.events[e].itemKind == Some("hook");
      assert SessionEvent(db, r, e);
    }
  }

  lemma AcceptedChainFits(rev: Revision, db: Db, r: Row)
    requires r.TurnReplacement? && SagaChain(rev, db, r)
    ensures HumanInterrupts(db, r)
    ensures InputAdmitted(rev, db, r, db.rows[Key(TurnInputs, r.replacementInput)])
    ensures TargetBranch(rev, r, db.rows[Key(TurnInputs, r.replacementInput)])
  {
    var input := db.rows[Key(TurnInputs, r.replacementInput)];
    var k :| k in db.rows && db.rows[k].Admission? && db.rows[k].SameFrame(r)
      && db.rows[k].input == r.replacementInput && db.rows[k].command == input.command
      && db.rows[k].state == "admitted" && (rev.Rank() >= 2 ==> db.rows[k].inputRevision == input.revision);
    assert InputAdmitted(rev, db, r, input);
  }

  lemma AcceptedStateFits(rev: Revision, db: Db, r: Row, input: Row)
    requires r.TurnReplacement? && input.TurnInput? && TargetBranch(rev, r, input) && CancelBranch(rev, db, r)
    ensures StateFits(rev, db, r, input)
  {
  }

  lemma AcceptedSagaIsParticular(rev: Revision, db: Db, r: Row)
    requires r.TurnReplacement? && SagaChain(rev, db, r) && CancelBranch(rev, db, r)
    ensures SagaFits(rev, db, r)
  {
    AcceptedChainFits(rev, db, r);
    AcceptedStateFits(rev, db, r, db.rows[Key(TurnInputs, r.replacementInput)]);
  }

  lemma AcceptedFeedbackIsParticular(db: Db, r: Row)
    requires r.FeedbackAggregate? && FeedbackBranch(db, r)
    ensures FeedbackGiven(db, r)
  {
    var e :| e in db.events && EventInFrame(db, e, r.tenant, r.session) && db.events[e].item == Some(r.targetItem)
      && (r.targetResult.None? || db.events[e].result == r.targetResult);
    assert SessionEvent(db, r, e);
    var m :| m in db.events && EventInFrame(db, m, r.tenant, r.session) && db.events[m].item == Some(r.lastMutationItem)
      && db.events[m].itemKind == Some("evaluation_feedback_mutation");
    assert SessionEvent(db, r, m);
  }

  lemma AcceptedIsParticular(rev: Revision, db: Db, id: Uuid, r: Row)
    requires Branch(rev, db, id, r)
    ensures Particular(rev, db, id, r)
  {
    if r.TurnInput? || r.Admission? {
      AcceptedInputIsParticular(rev, db, id, r);
    } else if r.CarryForward? {
      TargetExactly(db, r);
    } else if r.TurnReplacement? {
      AcceptedSagaIsParticular(rev, db, r);
    } else if r.FeedbackAggregate? {
      AcceptedFeedbackIsParticular(db, r);
    }
  }

  lemma BranchExactly(rev: Revision, db: Db, id: Uuid, r: Row)
    requires TenantBound(db, r)
    ensures Branch(rev, db, id, r) <==> Fits(rev, db, id, r)
  {
    if Branch(rev, db, id, r) {
      AcceptedRowIsSound(rev, db, None, id, r);
      forall d | Demands(id, r, d) ensures Met(db, d) { BranchMeets(rev, db, id, r, d); }
      AcceptedIsServed(rev, db, id, r);
      AcceptedIsParticular(rev, db, id, r);
    }
    if Fits(rev, db, id, r) { FittingIsAccepted(rev, db, id, r); }
  }

  /**
   A row is accepted if and only if it keeps the frame of the row it replaces, has its session's tenant,
   refers only inside its frame, has everything it demands met, is served by the run it names, and has
   what is particular to its table.
   */
  lemma RowAcceptedExactly(rev: Revision, db: Db, prior: Option<Row>, id: Uuid, r: Row)
    ensures BindingAccepts(rev, db, prior, id, r)
            <==> && (prior.Some? ==> r.tenant == prior.value.tenant && r.session == prior.value.session)
                 && r.session in db.sessions && db.sessions[r.session].tenant == r.tenant
                 && Fits(rev, db, id, r)
  {
    if TenantBound(db, r) { BranchExactly(rev, db, id, r); }
  }

  /* ---- Child sessions ---- */

  /** All a row needs besides a run that serves its session. */
  ghost predicate FitsButRun(rev: Revision, db: Db, id: Uuid, r: Row) {
    TenantBound(db, r) && References(db, r) && DemandsMet(db, id, r) && Particular(rev, db, id, r)
  }

  /** The run of the row and the row's session. */
  predicate Delegated(db: Db, r: Row) {
    && ServingRun(r).Some? && ServingRun(r).value in db.runs && r.session in db.sessions
    && db.runs[ServingRun(r).value].tenant == r.tenant
    && DelegatedTo(ServingRun(r).value, db.runs[ServingRun(r).value], db.sessions[r.session], r.session)
  }

  predicate Executed(db: Db, r: Row) {
    && ServingRun(r).Some? && ServingRun(r).value in db.runs && r.session in db.sessions
    && db.runs[ServingRun(r).value].tenant == r.tenant
    && ExecutedIn(ServingRun(r).value, db.runs[ServingRun(r).value], db.sessions[r.session], r.session)
  }

  predicate OwnSessionOf(db: Db, r: Row) {
    && ServingRun(r).Some? && ServingRun(r).value in db.runs && r.session in db.sessions
    && db.runs[ServingRun(r).value].tenant == r.tenant
    && StartedFrom(db.runs[ServingRun(r).value], db.sessions[r.session], r.session)
  }

  /** Then it is accepted exactly if it is served. */
  lemma RunDecides(rev: Revision, db: Db, id: Uuid, r: Row)
    requires FitsButRun(rev, db, id, r)
    ensures BindingAccepts(rev, db, None, id, r) <==> Served(rev, db, r)
  {
    RowAcceptedExactly(rev, db, None, id, r);
  }

  /** To whom a revision opens a session that was opened for a run. */
  predicate OpenToChild(rev: Revision, db: Db, r: Row) {
    || (Delegated(db, r) && ((RoundRow(r) && RoundsOfDelegations(rev)) || (PermissionResponse(r) && PermissionsOfDelegations(rev))))
    || (Executed(db, r) && ((RoundRow(r) && RoundsOfTasks(rev)) || (PermissionResponse(r) && PermissionsOfTasks(rev))))
  }

  lemma ServedSplits(rev: Revision, db: Db, r: Row)
    requires ServingRun(r).Some?
    ensures Served(rev, db, r) <==> OwnSessionOf(db, r) || OpenToChild(rev, db, r)
  {
  }

  lemma OneKindOfChild(db: Db, r: Row)
    ensures !(Delegated(db, r) && Executed(db, r))
  {
  }

  /** Only the sessions opened for the row's own run matter. */
  lemma OpenByKind(rev: Revision, db: Db, r: Row)
    ensures Delegated(db, r) ==>
              (OpenToChild(rev, db, r)
               <==> (RoundRow(r) && RoundsOfDelegations(rev)) || (PermissionResponse(r) && PermissionsOfDelegations(rev)))
    ensures Executed(db, r) ==>
              (OpenToChild(rev, db, r)
               <==> (RoundRow(r) && RoundsOfTasks(rev)) || (PermissionResponse(r) && PermissionsOfTasks(rev)))
  {
    OneKindOfChild(db, r);
  }

  /**
   The child session of a delegation is opened to the rows of its rounds by `delegation_session_rounds_1017`
   and to permission responses by `delegation_permissions_1022`, and that of a business task by
   `business_task_child_1022` and `business_permissions_1022`: no earlier, and then to every row that
   is right in all other respects.
   */
  lemma ChildIsServedFrom(rev: Revision, db: Db, id: Uuid, r: Row)
    requires FitsButRun(rev, db, id, r) && !OwnSessionOf(db, r)
    ensures Delegated(db, r) ==>
              (BindingAccepts(rev, db, None, id, r)
               <==> (RoundRow(r) && RoundsOfDelegations(rev)) || (PermissionResponse(r) && PermissionsOfDelegations(rev)))
    ensures Executed(db, r) ==>
              (BindingAccepts(rev, db, None, id, r)
               <==> (RoundRow(r) && RoundsOfTasks(rev)) || (PermissionResponse(r) && PermissionsOfTasks(rev)))
  {
    RunDecides(rev, db, id, r);
    if ServingRun(r).Some? { ServedSplits(rev, db, r); }
    OpenByKind(rev, db, r);
  }

  /** For the first model result of a delegation: with its turn and inputs right, that is all it takes. */
  lemma FirstResultOfChild(rev: Revision, db: Db, id: Uuid, r: Row)
    requires r.ModelResult? && TenantBound(db, r) && (Delegated(db, r) || Executed(db, r))
    requires RunHasTurn(db, r.run, r.turn) && AllInFrame(db, TurnInputs, r.boundInputs, r.tenant, r.session)
    requires r.committedEvent.None?
    ensures RoundsOfTasks(rev) ==> BindingAccepts(rev, db, None, id, r)
    ensures rev == DelegationRounds1017 && Delegated(db, r) ==> BindingAccepts(rev, db, None, id, r)
    ensures !RoundsOfDelegations(rev) ==> (BindingAccepts(rev, db, None, id, r) <==> OwnSessionOf(db, r))
  {
    RowAcceptedExactly(rev, db, None, id, r);
  }

  /** What one of these revisions accepts and an earlier one does not, exactly. */
  lemma NewlyAcceptedExactly(a: Revision, b: Revision, db: Db, id: Uuid, r: Row)
    requires Revisioned(a) && a.Rank() <= b.Rank() && FitsButRun(a, db, id, r) && ServingRun(r).Some?
    ensures BindingAccepts(b, db, None, id, r) && !BindingAccepts(a, db, None, id, r)
            <==> !OwnSessionOf(db, r) && OpenToChild(b, db, r) && !OpenToChild(a, db, r)
  {
    SameParticular(a, b, db, id, r);
    RunDecides(a, db, id, r);
    RunDecides(b, db, id, r);
    ServedSplits(a, db, r);
    ServedSplits(b, db, r);
  }

  lemma SameParticular(a: Revision, b: Revision, db: Db, id: Uuid, r: Row)
    requires Revisioned(a) && Revisioned(b) && Particular(a, db, id, r)
    ensures Particular(b, db, id, r)
  {
    if r.TurnReplacement? {
      var input := db.rows[Key(TurnInputs, r.replacementInput)];
      var k :| k in db.rows && db.rows[k].Admission? && db.rows[k].tenant == r.tenant && db.rows[k].session == r.session
        && db.rows[k].input == r.replacementInput && db.rows[k].command == input.command
        && db.rows[k].state == "admitted" && (!Revisioned(a) || db.rows[k].inputRevision == input.revision);
      assert InputAdmitted(b, db, r, input);
    }
  }
}
