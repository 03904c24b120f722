/**
 The tables as they are changed in place, each write behind its trigger. The triggers are the
 IF ... RAISE sequences of the source; a true result stands for RAISE.
 */
module SessionDatabase {
  import opened Wrappers
  import opened SessionTables
  import opened BindingTrigger
  import opened EventTrigger
  import opened AuthorityRuns
  import AcceptedEvents
  import AcceptedRows

  class Database {
    var sessions: map<Uuid, ChatSession>
    var runs: map<Uuid, RuntimeTask>
    var events: map<Uuid, Event>
    var rows: map<Key, Row>
    var epoch: Option<Epoch>
    var binding: Revision
    var contract: EventRevision
    const matrices: Matrices

    constructor (s: State)
      ensures Value() == s
    {
      sessions, runs, events, rows, epoch := s.db.sessions, s.db.runs, s.db.events, s.db.rows, s.db.epoch;
      binding, contract, matrices := s.binding, s.event, s.matrices;
    }

    function Tables(): Db
      reads this
    {
      Db(sessions, runs, events, rows, epoch)
    }

    function Value(): State
      reads this
    {
      State(Tables(), binding, contract, matrices)
    }

    /** Every row and every event is bound to its session, and refers only inside it. */
    ghost predicate Valid()
      reads this
    {
      Sound(Tables())
    }

    /* ---- Triggers ---- */

    method EnforceSessionWriterEpoch(prior: Option<RuntimeTask>, run: RuntimeTask) returns (raised: bool)
      ensures raised <==> !WriterAccepts(Tables(), prior, run)
      ensures raised <==> && epoch.Some? && epoch.value.enforce
                          && !(&& run.writerGeneration in epoch.value.allowed
                               && run.writerGeneration
                                  == if prior.Some? then prior.value.writerGeneration else epoch.value.newRunGeneration)
    {
      if epoch.None? || !epoch.value.enforce {
        return false;
      }
      if prior.None? {
        return run.writerGeneration != epoch.value.newRunGeneration || run.writerGeneration !in epoch.value.allowed;
      }
      if run.writerGeneration != prior.value.writerGeneration {
        return true;
      }
      return prior.value.writerGeneration !in epoch.value.allowed;
    }

    method EnforceEpoch(e: Event) returns (raised: bool)
      ensures raised <==> !EpochSection(Tables(), e)
    {
      if epoch.Some? && epoch.value.enforce {
        if e.schemaVersion != 2 {
          if epoch.value.state != "v1_draining" || e.run.None? {
            return true;
          }
          return e.run.value !in runs || runs[e.run.value].writerGeneration != 1
              || runs[e.run.value].writerGeneration !in epoch.value.allowed;
        } else if e.run.Some? {
          return e.run.value !in runs || runs[e.run.value].writerGeneration != 2
              || runs[e.run.value].writerGeneration !in epoch.value.allowed;
        }
      }
      return false;
    }

    method EnforceLegacyRun(e: Event) returns (raised: bool)
      ensures raised <==> !LegacySection(contract, Tables(), e)
    {
      if e.schemaVersion == 2 || e.run.None? {
        return false;
      }
      if epoch.None? || e.run.value !in runs {
        return true;
      }
      var run := runs[e.run.value];
      return run.tenant != e.tenant || !LegacyRunBound(contract, run, e) || run.writerGeneration !in epoch.value.allowed;
    }

    /** Item, rule and scope of a V2 event. */
    method EnforceEnvelope(e: Event) returns (raised: bool)
      ensures raised <==> !EnvelopeSection(contract, matrices, e)
    {
      if e.item.None? || e.itemKind.None? || e.lifecycle.None? || e.payloadSchema.None?
         || e.scope.None? || !e.scope.value.JObject? {
        return true;
      }
      var kind, lifecycle, scope := e.itemKind.value, e.lifecycle.value, e.scope.value.fields;
      if e.eventType != kind + "." + lifecycle
         || e.payloadSchema.value != "hive.session.payload." + kind + "." + lifecycle + ".v2" {
        return true;
      }
      var eventMatrix := RulesAt(contract, matrices);
      var level := TextField(scope, "level");
      if kind !in eventMatrix {
        return true;
      }
      var rule := eventMatrix[kind];
      if lifecycle !in rule.lifecycles || (level.Some? && level.value !in rule.scopes) {
        return true;
      }
      raised := EnforceScope(e, scope, level);
    }

    /** The scope document of a V2 event: its keys, its session and, from their levels on, turn, run and round. */
    method EnforceScope(e: Event, scope: map<string, Json>, level: Option<string>) returns (raised: bool)
      requires e.scope == Some(JObject(scope)) && level == TextField(scope, "level")
      ensures raised <==> !ScopeSection(e)
    {
      var allowedScopeKeys := if level == Some("session") then {"level", "session_id", "thread_id"}
                              else if level == Some("turn") then {"level", "session_id", "thread_id", "turn_id"}
                              else if level == Some("run") then {"level", "session_id", "thread_id", "turn_id", "run_id"}
                              else if level == Some("round") then
                                {"level", "session_id", "thread_id", "turn_id", "run_id", "round_id"}
                              else {};
      if exists key :: key in scope.Keys && key !in allowedScopeKeys {
        return true;
      }
      var scopedSession, scopedRun := TextField(scope, "session_id"), TextField(scope, "run_id");
      if Blank(scopedSession) || Blank(TextField(scope, "thread_id")) || scopedSession != TextField(scope, "thread_id")
         || Normalize(scopedSession.value) != e.session {
        return true;
      }
      var fromTurn := level == Some("turn") || level == Some("run") || level == Some("round");
      var fromRun := level == Some("run") || level == Some("round");
      if fromTurn && Blank(TextField(scope, "turn_id")) {
        return true;
      }
      if fromRun && Blank(scopedRun) {
        return true;
      }
      if level == Some("round") && Blank(TextField(scope, "round_id")) {
        return true;
      }
      if (level == Some("session") || level == Some("turn")) && e.run.Some? {
        return true;
      }
      return fromRun && (e.run.None? || Text(e.run.value) != scopedRun.value);
    }

    /** The references of a V2 event, one after the other. */
    method EnforceReferences(e: Event) returns (raised: bool)
      ensures raised <==> !ReferenceSection(contract, Tables(), e)
    {
      if e.run.Some? {
        raised := EnforceEventRun(e, e.run.value);
        if raised {
          return;
        }
      }
      if e.command.Some? {
        var command := SelectRow(Commands, e.command.value, e.tenant, e.session);
        if command.None? {
          return true;
        }
      }
      if e.input.Some? {
        raised := EnforceEventInput(e, e.input.value);
        if raised {
          return;
        }
      }
      raised := EnforceEventResult(e);
    }

    method EnforceEventRun(e: Event, runId: Uuid) returns (raised: bool)
      ensures raised <==> !(&& runId in runs && runs[runId].tenant == e.tenant
                            && V2RunBound(contract, runs[runId], e))
    {
      if runId !in runs || runs[runId].tenant != e.tenant {
        return true;
      }
      var run := runs[runId];
      if contract.Rank() < 5 {
        return run.parentSession != Some(Text(e.session)) || run.parentAgent != Some(e.agent);
      }
      if Denotes(run.parentSession, e.session) && run.parentAgent == Some(e.agent) {
        return false;
      }
      var childAgent := if run.childAgent.None? then run.parentAgent else run.childAgent;
      return !Denotes(run.childSession, e.session) || childAgent != Some(e.agent);
    }

    method EnforceEventInput(e: Event, inputId: Uuid) returns (raised: bool)
      requires e.input == Some(inputId)
      ensures raised <==> !InputReference(contract, Tables(), e)
    {
      var input := SelectRow(TurnInputs, inputId, e.tenant, e.session);
      if input.None? {
        return true;
      }
      if e.command.Some? && input.value.command != e.command.value {
        if contract.Rank() < 1 {
          return true;
        }
        var linked := SelectRow(Commands, e.command.value, input.value.tenant, input.value.session);
        if linked.None? || linked.value.namespace != "turn_replacement"
           || linked.value.causation != Some(input.value.command) {
          return true;
        }
      }
      return input.value.targetRun.Some? && e.run.Some? && input.value.targetRun != e.run;
    }

    method EnforceEventResult(e: Event) returns (raised: bool)
      ensures raised <==> !ResultReference(Tables(), e)
    {
      if e.result.Some? {
        var result := SelectRow(ModelResults, e.result.value, e.tenant, e.session);
        if result.None? || e.run != Some(result.value.run) || ScopeField(e, "turn_id") != Some(result.value.turn)
           || ScopeField(e, "round_id") != Some(result.value.round) {
          return true;
        }
      }
      if e.invocation.Some? {
        var invocation := SelectRow(ToolInvocations, e.invocation.value, e.tenant, e.session);
        if invocation.None? || e.run != Some(invocation.value.run)
           || ScopeField(e, "round_id") != Some(invocation.value.round) {
          return true;
        }
      }
      return false;
    }

    /** Payload documents, assistant phase and hook boundary of a V2 event. */
    method EnforcePayload(e: Event) returns (raised: bool)
      requires e.itemKind.Some? && e.lifecycle.Some? && e.scope.Some? && e.scope.value.JObject?
      ensures raised <==> !PayloadSection(matrices, e)
    {
      var document := MetadataField(e, "v2_payload");
      if !document.JObject? || !MetadataField(e, "actor").JObject? || !MetadataField(e, "visibility").JObject? {
        return true;
      }
      raised := EnforcePhase(e.itemKind.value, document.fields);
      if !raised && e.itemKind.value == "hook" {
        raised := EnforceHook(e, document.fields);
      }
    }

    method EnforcePhase(kind: string, payload: map<string, Json>) returns (raised: bool)
      ensures raised <==> !PhaseAllowed(kind, payload)
    {
      var phase := TextField(payload, "phase");
      if kind == "assistant_text" {
        return phase.Some? && phase.value != "unknown";
      } else if kind == "assistant_commentary" {
        return phase.Some? && phase.value != "commentary";
      } else if kind == "assistant_reasoning_summary" {
        return phase.Some? && phase.value != "reasoning_summary";
      } else if kind == "assistant_reasoning_private" {
        return phase.Some? && phase.value != "reasoning_private";
      } else if kind == "assistant_final" {
        return phase.Some? && phase.value != "final";
      }
      return "phase" in payload;
    }

    method EnforceHook(e: Event, payload: map<string, Json>) returns (raised: bool)
      requires e.lifecycle.Some? && e.scope.Some? && e.scope.value.JObject?
      ensures raised <==> !HookAllowed(matrices, e, payload)
    {
      var boundary, source := TextField(payload, "boundary"), TextField(payload, "source");
      var level := TextField(e.scope.value.fields, "level");
      var sourceValue := if source.None? then "" else source.value;
      if boundary.None? || boundary.value !in matrices.hooks {
        return true;
      }
      var hookRule := matrices.hooks[boundary.value];
      if e.lifecycle.value !in hookRule.hookLifecycles || (level.Some? && level.value !in hookRule.hookScopes) {
        return true;
      }
      if hookRule.sources != {} {
        return sourceValue !in hookRule.sources;
      }
      return "source" in payload;
    }

    /** The binding check, the projection guard and the sections behind it. */
    method EnforceContract(prior: Option<Event>, e: Event) returns (raised: bool)
      ensures raised <==> !EventAccepts(contract, matrices, Tables(), prior, e)
    {
      if e.session !in sessions || e.tenant != sessions[e.session].tenant || e.agent != sessions[e.session].agent {
        return true;
      }
      if ProjectionOnly(contract, prior, e) {
        return false;
      }
      raised := EnforceCanonicalWrite(e);
    }

    /**
     An event is let through exactly if it belongs to its session, and either only moves its projection or is
     writable: its writer is allowed, and it is well scoped, referenced and payloaded.
     */
    method EnforceSessionEventContract(prior: Option<Event>, e: Event) returns (raised: bool)
      ensures raised <==> !EventAccepts(contract, matrices, Tables(), prior, e)
      ensures !raised <==> && e.session in sessions
                           && sessions[e.session].tenant == e.tenant && sessions[e.session].agent == e.agent
                           && (AcceptedEvents.MovesProjection(contract, prior, e)
                               || AcceptedEvents.Writable(contract, matrices, Tables(), e))
    {
      AcceptedEvents.EventAcceptedExactly(contract, matrices, Tables(), prior, e);
      raised := EnforceContract(prior, e);
    }

    /** The sections behind the projection guard. */
    method EnforceCanonicalWrite(e: Event) returns (raised: bool)
      ensures raised <==> !CanonicalWriteAccepted(contract, matrices, Tables(), e)
    {
      raised := EnforceEpoch(e);
      if raised {
        return;
      }
      raised := EnforceLegacyRun(e);
      if raised || e.schemaVersion != 2 {
        return;
      }
      raised := EnforceEnvelope(e);
      if raised {
        return;
      }
      raised := EnforceReferences(e);
      if raised {
        return;
      }
      raised := EnforcePayload(e);
    }

    /* ---- Queries of the binding trigger ---- */

    /** The row of `table` with this id in the frame. */
    method SelectRow(table: Table, id: Uuid, tenant: Uuid, session: Uuid) returns (row: Option<Row>)
      ensures row.Some? <==> InFrame(Tables(), table, id, tenant, session)
      ensures row.Some? ==> row.value == rows[Key(table, id)]
    {
      if Key(table, id) !in rows {
        return None;
      }
      var stored := rows[Key(table, id)];
      return if stored.TableOf() == table && stored.tenant == tenant && stored.session == session then Some(stored) else None;
    }

    method SelectEvent(id: Uuid, tenant: Uuid, session: Uuid) returns (event: Option<Event>)
      ensures event.Some? <==> EventInFrame(Tables(), id, tenant, session)
      ensures event.Some? ==> event.value == events[id]
    {
      if id !in events || events[id].tenant != tenant || events[id].session != session {
        return None;
      }
      return Some(events[id]);
    }

    /** The run with this id, if it has authority over the session, whose agent is `boundAgent`. */
    method SelectRun(clause: RunClause, runId: Uuid, tenant: Uuid, session: Uuid, boundAgent: Uuid)
      returns (run: Option<RuntimeTask>)
      requires session in sessions && sessions[session].agent == boundAgent
      ensures run.Some? <==> RunAuthority(Tables(), clause, runId, tenant, session)
      ensures run.Some? ==> run.value == runs[runId]
    {
      if runId !in runs || runs[runId].tenant != tenant {
        return None;
      }
      var task := runs[runId];
      if task.parentSession == Some(Text(session)) && task.parentAgent == Some(boundAgent) {
        return Some(task);
      }
      var isChild := false;
      if clause.business {
        isChild := IsBusinessTaskChild(runId, task, tenant, session);
      }
      if clause.delegation && !isChild {
        isChild := IsDelegationChild(runId, task, tenant, session);
      }
      return if isChild then Some(task) else None;
    }

    method IsBusinessTaskChild(runId: Uuid, run: RuntimeTask, tenant: Uuid, session: Uuid) returns (isChild: bool)
      requires session in sessions
      ensures isChild <==> BusinessTaskChild(Tables(), runId, run, tenant, session)
    {
      var child := sessions[session];
      if run.taskType != "business_task" || run.parentAgent != Some(child.agent) || run.childAgent != run.parentAgent {
        return false;
      }
      if child.tenant != tenant || child.kind != "user_task" || child.sourceChannel != "task" {
        return false;
      }
      if child.runtimeTask != Some(runId) || child.user.None? || child.user != run.rootUser {
        return false;
      }
      return run.childSession.Some? && Normalize(run.childSession.value) == session;
    }

    method IsDelegationChild(runId: Uuid, run: RuntimeTask, tenant: Uuid, session: Uuid) returns (isChild: bool)
      requires session in sessions
      ensures isChild <==> DelegationChild(Tables(), runId, run, tenant, session)
    {
      var child := sessions[session];
      if run.taskType != "delegation" || run.childAgent != Some(child.agent) {
        return false;
      }
      if child.tenant != tenant || child.kind != "delegation_run" || child.runtimeTask != Some(runId) {
        return false;
      }
      if child.peerAgent.None? || child.peerAgent != run.parentAgent || child.user.None? || child.user != run.rootUser {
        return false;
      }
      if run.childSession.None? || Normalize(run.childSession.value) != session {
        return false;
      }
      return child.parentSession.Some? && run.parentSession.Some?
             && Normalize(run.parentSession.value) == child.parentSession.value;
    }

    /** An array of identifiers, each of a row in the frame. */
    method SelectAll(table: Table, ids: IdArray, tenant: Uuid, session: Uuid) returns (found: bool)
      ensures found <==> AllInFrame(Tables(), table, ids, tenant, session)
    {
      if ids.NotAnArray? {
        return false;
      }
      for i := 0 to |ids.elements|
        invariant forall k :: 0 <= k < i ==>
                    ids.elements[k].Some? && InFrame(Tables(), table, ids.elements[k].value, tenant, session)
      {
        if ids.elements[i].None? {
          return false;
        }
        var row := SelectRow(table, ids.elements[i].value, tenant, session);
        if row.None? {
          return false;
        }
      }
      return true;
    }

    /* ---- Branches of the binding trigger ---- */

    method TurnInputAuthority(r: Row, boundAgent: Uuid) returns (authorityOk: bool)
      requires r.TurnInput? && r.session in sessions && sessions[r.session].agent == boundAgent
      ensures authorityOk <==> TurnInputBranch(binding, Tables(), r)
    {
      var command := SelectRow(Commands, r.command, r.tenant, r.session);
      if command.None? {
        return false;
      }
      if r.targetRun.Some? {
        var run := SelectRun(ClauseFor(binding, TurnInputs, false), r.targetRun.value, r.tenant, r.session, boundAgent);
        if run.None? {
          return false;
        }
      }
      if r.requestItem.Some?
         && !exists id :: id in events && events[id].item == r.requestItem
                          && events[id].tenant == r.tenant && events[id].session == r.session {
        return false;
      }
      return r.forkAfter.None?
             || exists id :: id in events && events[id].sequence == r.forkAfter.value
                             && events[id].tenant == r.tenant && events[id].session == r.session;
    }

    method AdmissionAuthority(r: Row) returns (authorityOk: bool)
      requires r.Admission?
      ensures authorityOk <==> AdmissionBranch(binding, Tables(), r)
    {
      var command := SelectRow(Commands, r.command, r.tenant, r.session);
      if command.None? {
        return false;
      }
      var turnInput := SelectRow(TurnInputs, r.input, command.value.tenant, command.value.session);
      if turnInput.None? || turnInput.value.command != r.command {
        return false;
      }
      if binding.Rank() >= 2 && (r.inputRevision <= 0 || r.inputRevision > turnInput.value.revision) {
        return false;
      }
      return r.hookItem.None?
             || exists id :: id in events && events[id].item == r.hookItem && events[id].itemKind == Some("hook")
                             && events[id].tenant == r.tenant && events[id].session == r.session;
    }

    method CarryForwardAuthority(r: Row) returns (authorityOk: bool)
      requires r.CarryForward?
      ensures authorityOk <==> CarryForwardBranch(Tables(), r)
    {
      var admission := SelectRow(InputAdmissions, r.sourceAdmission, r.tenant, r.session);
      if admission.None? || admission.value.input != r.sourceInput || admission.value.hookRun != r.sourceHookRun {
        return false;
      }
      var turnInput := SelectRow(TurnInputs, admission.value.input, admission.value.tenant, admission.value.session);
      if turnInput.None? {
        return false;
      }
      var targetOk := CarryForwardTarget(r);
      if !targetOk || r.consumedEvent.None? {
        return targetOk;
      }
      var consumed := SelectEvent(r.consumedEvent.value, r.tenant, r.session);
      if consumed.None? || consumed.value.item != Some(r.contextItem) {
        return false;
      }
      var turn, round := ScopeField(consumed.value, "turn_id"), ScopeField(consumed.value, "round_id");
      return turn.Some? && turn == r.targetTurn && round.Some? && round == r.targetRound;
    }

    /** Some result or event has the target turn, and some result the target round. */
    method CarryForwardTarget(r: Row) returns (targetOk: bool)
      requires r.CarryForward?
      ensures targetOk <==> CarryTarget(Tables(), r)
    {
      if r.targetTurn.Some? {
        var byResult := exists k :: k in rows && rows[k].ModelResult? && rows[k].turn == r.targetTurn.value
                                    && rows[k].tenant == r.tenant && rows[k].session == r.session;
        if !byResult
           && !exists id :: id in events && ScopeField(events[id], "turn_id") == r.targetTurn
                            && events[id].tenant == r.tenant && events[id].session == r.session {
          return false;
        }
      }
      return r.targetRound.None?
             || exists k :: k in rows && rows[k].ModelResult? && Some(rows[k].turn) == r.targetTurn
                            && rows[k].round == r.targetRound.value
                            && rows[k].tenant == r.tenant && rows[k].session == r.session;
    }

    method ControlInputAuthority(r: Row, boundAgent: Uuid) returns (authorityOk: bool)
      requires r.ControlInput? && r.session in sessions && sessions[r.session].agent == boundAgent
      ensures authorityOk <==> ControlInputBranch(binding, Tables(), r)
    {
      var command := SelectRow(Commands, r.command, r.tenant, r.session);
      if command.None? {
        return false;
      }
      var clause := ClauseFor(binding, ControlInputs, r.controlKind == "permission_response");
      var run := SelectRun(clause, r.expectedRun, r.tenant, r.session, boundAgent);
      if run.None? {
        return false;
      }
      return r.requestItem.None?
             || exists id :: id in events && events[id].item == r.requestItem
                             && events[id].tenant == r.tenant && events[id].session == r.session;
    }

    /** The join of the saga's cancel command and cancel control. */
    method CancelJoin(r: Row) returns (cancelOk: bool)
      requires r.TurnReplacement?
      ensures cancelOk <==> CancelAuthority(Tables(), r)
    {
      if r.cancelCommand.None? || r.cancelControl.None? {
        return false;
      }
      var cancel := SelectRow(Commands, r.cancelCommand.value, r.tenant, r.session);
      if cancel.None? || cancel.value.causation != Some(r.command) || cancel.value.namespace != "control_input" {
        return false;
      }
      var control := SelectRow(ControlInputs, r.cancelControl.value, r.tenant, r.session);
      return control.Some? && control.value.command == r.cancelCommand.value && control.value.expectedRun == r.oldRun;
    }

    method SagaCancel(r: Row) returns (cancelOk: bool)
      requires r.TurnReplacement?
      ensures cancelOk <==> CancelBranch(binding, Tables(), r)
    {
      if binding.Rank() > 0 && r.cancelControl.None? && r.cancelCommand.None? {
        return r.state == "requested" || (binding.Rank() >= 2 && r.state == "needs_reconciliation");
      }
      if binding.Rank() > 0 && r.state == "requested" {
        return false;
      }
      cancelOk := CancelJoin(r);
    }

    /** The join of the saga, its human command, the replacement input and its admission. */
    method SagaJoin(r: Row) returns (joined: bool)
      requires r.TurnReplacement?
      ensures joined <==> SagaChain(binding, Tables(), r)
    {
      var saga := SelectRow(Commands, r.command, r.tenant, r.session);
      if saga.None? || saga.value.namespace != "turn_replacement" || saga.value.causation.None? {
        return false;
      }
      var parentId := saga.value.causation.value;
      var parent := SelectRow(Commands, parentId, saga.value.tenant, saga.value.session);
      if parent.None? || parent.value.namespace != "human_input" || parent.value.commandKind != "interrupt_and_replace" {
        return false;
      }
      var input := SelectRow(TurnInputs, r.replacementInput, saga.value.tenant, saga.value.session);
      if input.None? || input.value.command != parentId || input.value.intent != "interrupt_and_replace" {
        return false;
      }
      var targetsOld := input.value.targetTurn == Some(r.oldTurn) && input.value.targetRun == Some(r.oldRun);
      if binding.Rank() == 0 || r.state == "requested" || r.state == "cancel_accepted" || r.state == "old_run_fenced" {
        if !targetsOld {
          return false;
        }
      } else if r.state in {"replacement_queued", "replacement_admitted", "completed", "failed", "needs_reconciliation"} {
        if input.value.targetTurn != Some(r.oldTurn) && input.value.targetTurn != Some(r.replacementTurn) {
          return false;
        }
      } else {
        return false;
      }
      return exists k :: k in rows && rows[k].Admission? && rows[k].input == r.replacementInput
                         && rows[k].command == parentId && rows[k].state == "admitted"
                         && rows[k].tenant == r.tenant && rows[k].session == r.session
                         && (binding.Rank() >= 2 ==> rows[k].inputRevision == input.value.revision);
    }

    method ReplacementAuthority(r: Row, boundAgent: Uuid) returns (authorityOk: bool)
      requires r.TurnReplacement? && r.session in sessions && sessions[r.session].agent == boundAgent
      ensures authorityOk <==> ReplacementBranch(binding, Tables(), r)
    {
      var joined := SagaJoin(r);
      if !joined {
        return false;
      }
      var cancelOk := SagaCancel(r);
      if !cancelOk {
        return false;
      }
      var oldRun := SelectRun(ClauseFor(binding, TurnReplacements, false), r.oldRun, r.tenant, r.session, boundAgent);
      if oldRun.None? || TurnOf(r.oldRun, oldRun.value) != r.oldTurn {
        return false;
      }
      if r.lastEvent.None? {
        return true;
      }
      var lastEvent := SelectEvent(r.lastEvent.value, r.tenant, r.session);
      return lastEvent.Some?;
    }

    method ToolInvocationAuthority(id: Uuid, r: Row, boundAgent: Uuid) returns (authorityOk: bool)
      requires r.ToolInvocation? && r.session in sessions && sessions[r.session].agent == boundAgent
      ensures authorityOk <==> ToolInvocationBranch(binding, Tables(), id, r)
    {
      var run := SelectRun(ClauseFor(binding, ToolInvocations, false), r.run, r.tenant, r.session, boundAgent);
      if run.None? {
        return false;
      }
      if !exists k :: k in rows && rows[k].ModelResult? && rows[k].run == r.run && rows[k].round == r.round
                      && rows[k].tenant == r.tenant && rows[k].session == r.session {
        return false;
      }
      if r.resultEvent.None? {
        return true;
      }
      var event := SelectEvent(r.resultEvent.value, r.tenant, r.session);
      if event.None? || event.value.itemKind != Some("tool_result") || event.value.lifecycle != Some("completed") {
        return false;
      }
      if event.value.invocation != Some(id) || event.value.providerToolUse != Some(r.providerToolUse) {
        return false;
      }
      return event.value.run == Some(r.run) && ScopeField(event.value, "round_id") == Some(r.round);
    }

    method ModelResultAuthority(id: Uuid, r: Row, boundAgent: Uuid) returns (authorityOk: bool)
      requires r.ModelResult? && r.session in sessions && sessions[r.session].agent == boundAgent
      ensures authorityOk <==> ModelResultBranch(binding, Tables(), id, r)
    {
      var run := SelectRun(ClauseFor(binding, ModelResults, false), r.run, r.tenant, r.session, boundAgent);
      if run.None? || TurnOf(r.run, run.value) != r.turn {
        return false;
      }
      var inputsOk := SelectAll(TurnInputs, r.boundInputs, r.tenant, r.session);
      if !inputsOk || r.committedEvent.None? {
        return inputsOk;
      }
      var event := SelectEvent(r.committedEvent.value, r.tenant, r.session);
      if event.None? || event.value.result != Some(id) || event.value.run != Some(r.run) {
        return false;
      }
      return ScopeField(event.value, "turn_id") == Some(r.turn) && ScopeField(event.value, "round_id") == Some(r.round);
    }

    method ObligationAuthority(r: Row, boundAgent: Uuid) returns (authorityOk: bool)
      requires r.RoundObligation? && r.session in sessions && sessions[r.session].agent == boundAgent
      ensures authorityOk <==> ObligationBranch(binding, Tables(), r)
    {
      var run := SelectRun(ClauseFor(binding, RoundObligations, false), r.run, r.tenant, r.session, boundAgent);
      if run.None? {
        return false;
      }
      var result := SelectRow(ModelResults, r.sourceResult, r.tenant, r.session);
      return result.Some? && result.value.run == r.run && result.value.turn == r.turn;
    }

    method PlanAuthority(r: Row, boundAgent: Uuid) returns (authorityOk: bool)
      requires r.NextRoundPlan? && r.session in sessions && sessions[r.session].agent == boundAgent
      ensures authorityOk <==> PlanBranch(binding, Tables(), r)
    {
      var run := SelectRun(ClauseFor(binding, NextRoundPlans, false), r.run, r.tenant, r.session, boundAgent);
      if run.None? {
        return false;
      }
      var result := SelectRow(ModelResults, r.sourceResult, r.tenant, r.session);
      if result.None? || result.value.run != r.run || r.obligations.NotAnArray? {
        return false;
      }
      for i := 0 to |r.obligations.elements|
        invariant forall k :: 0 <= k < i ==> ObligationOfPlan(Tables(), r, r.obligations.elements[k])
      {
        if r.obligations.elements[i].None? {
          return false;
        }
        var obligation := SelectRow(RoundObligations, r.obligations.elements[i].value, r.tenant, r.session);
        if obligation.None? || obligation.value.run != r.run || obligation.value.sourceResult != r.sourceResult {
          return false;
        }
      }
      return true;
    }

    method OutcomeAuthority(r: Row, boundAgent: Uuid) returns (authorityOk: bool)
      requires r.RunOutcome? && r.session in sessions && sessions[r.session].agent == boundAgent
      ensures authorityOk <==> OutcomeBranch(binding, Tables(), r)
    {
      var run := SelectRun(ClauseFor(binding, RunOutcomes, false), r.run, r.tenant, r.session, boundAgent);
      if run.None? {
        return false;
      }
      var result := SelectRow(ModelResults, r.terminalResult, r.tenant, r.session);
      if result.None? || result.value.run != r.run || result.value.turn != r.turn {
        return false;
      }
      if r.terminalEvent.None? {
        return true;
      }
      var event := SelectEvent(r.terminalEvent.value, r.tenant, r.session);
      return event.Some? && event.value.result == Some(r.terminalResult) && event.value.run == Some(r.run)
             && ScopeField(event.value, "turn_id") == Some(r.turn);
    }

    method FeedbackAuthority(r: Row) returns (authorityOk: bool)
      requires r.FeedbackAggregate?
      ensures authorityOk <==> FeedbackBranch(Tables(), r)
    {
      if !exists id :: id in events && events[id].item == Some(r.targetItem)
                       && events[id].tenant == r.tenant && events[id].session == r.session
                       && (r.targetResult.None? || events[id].result == r.targetResult) {
        return false;
      }
      if r.targetResult.Some? {
        var result := SelectRow(ModelResults, r.targetResult.value, r.tenant, r.session);
        if result.None? {
          return false;
        }
      }
      return exists id :: id in events && events[id].item == Some(r.lastMutationItem)
                          && events[id].itemKind == Some("evaluation_feedback_mutation")
                          && events[id].tenant == r.tenant && events[id].session == r.session;
    }

    /** The branches that need neither a run nor the session's agent. */
    method RunlessAuthority(r: Row) returns (authorityOk: bool)
      requires r.EventCursor? || r.OutboxEntry? || r.Command? || r.Admission? || r.CarryForward? || r.FeedbackAggregate?
      ensures forall id :: authorityOk <==> Branch(binding, Tables(), id, r)
    {
      if r.EventCursor? {
        return true;
      } else if r.OutboxEntry? {
        var event := SelectEvent(r.event, r.tenant, r.session);
        return event.Some? && event.value.sequence == r.sequence;
      } else if r.Command? {
        if r.causation.None? {
          return true;
        }
        var cause := SelectRow(Commands, r.causation.value, r.tenant, r.session);
        return cause.Some?;
      } else if r.Admission? {
        authorityOk := AdmissionAuthority(r);
      } else if r.CarryForward? {
        authorityOk := CarryForwardAuthority(r);
      } else {
        authorityOk := FeedbackAuthority(r);
      }
    }

    method RunAuthorities(id: Uuid, r: Row, boundAgent: Uuid) returns (authorityOk: bool)
      requires !r.EventCursor? && !r.OutboxEntry? && !r.Command? && !r.Admission? && !r.CarryForward?
      requires !r.FeedbackAggregate? && r.session in sessions && sessions[r.session].agent == boundAgent
      ensures authorityOk <==> Branch(binding, Tables(), id, r)
    {
      if r.TurnInput? {
        authorityOk := TurnInputAuthority(r, boundAgent);
      } else if r.ControlInput? {
        authorityOk := ControlInputAuthority(r, boundAgent);
      } else if r.TurnReplacement? {
        authorityOk := ReplacementAuthority(r, boundAgent);
      } else if r.ToolInvocation? {
        authorityOk := ToolInvocationAuthority(id, r, boundAgent);
      } else if r.ModelResult? {
        authorityOk := ModelResultAuthority(id, r, boundAgent);
      } else if r.RoundObligation? {
        authorityOk := ObligationAuthority(r, boundAgent);
      } else if r.NextRoundPlan? {
        authorityOk := PlanAuthority(r, boundAgent);
      } else {
        authorityOk := OutcomeAuthority(r, boundAgent);
      }
    }

    method Authority(id: Uuid, r: Row, boundAgent: Uuid) returns (authorityOk: bool)
      requires r.session in sessions && sessions[r.session].agent == boundAgent
      ensures authorityOk <==> Branch(binding, Tables(), id, r)
    {
      if r.EventCursor? || r.OutboxEntry? || r.Command? || r.Admission? || r.CarryForward? || r.FeedbackAggregate? {
        authorityOk := RunlessAuthority(r);
      } else {
        authorityOk := RunAuthorities(id, r, boundAgent);
      }
    }

    /** The frame of a row never changes, and its tenant is its session's. */
    method EnforceFrame(prior: Option<Row>, r: Row) returns (raised: bool)
      ensures raised <==> !((prior.Some? ==> r.SameFrame(prior.value)) && TenantBound(Tables(), r))
    {
      if prior.Some? && (prior.value.tenant != r.tenant || prior.value.session != r.session) {
        return true;
      }
      return r.session !in sessions || r.tenant != sessions[r.session].tenant;
    }

    method EnforceBinding(prior: Option<Row>, id: Uuid, r: Row) returns (raised: bool)
      ensures raised <==> !BindingAccepts(binding, Tables(), prior, id, r)
    {
      raised := EnforceFrame(prior, r);
      if !raised {
        var authorityOk := Authority(id, r, sessions[r.session].agent);
        raised := !authorityOk;
      }
    }

    /**
     A row is let through exactly if it keeps the frame of the row it replaces, has its session's tenant, and
     fits: its references stay in its frame, its demands are met, its run serves its session, and what is
     particular to its table holds.
     */
    method EnforceSessionTenantBinding(prior: Option<Row>, id: Uuid, r: Row) returns (raised: bool)
      ensures raised <==> !BindingAccepts(binding, Tables(), prior, id, r)
      ensures !raised <==> && (prior.Some? ==> r.tenant == prior.value.tenant && r.session == prior.value.session)
                           && r.session in sessions && sessions[r.session].tenant == r.tenant
                           && AcceptedRows.Fits(binding, Tables(), id, r)
    {
      AcceptedRows.RowAcceptedExactly(binding, Tables(), prior, id, r);
      raised := EnforceBinding(prior, id, r);
    }

    /* ---- Writes ---- */

    method WriteRuntimeTask(op: Op) returns (accepted: bool)
      requires op.InsertRun? || op.UpdateRun?
      modifies `runs
      ensures accepted == Accepted(old(Value()), op) && Value() == Step(old(Value()), op)
      ensures accepted && epoch.Some? && epoch.value.enforce ==>
                op.newRun.writerGeneration
                == if op.InsertRun? then epoch.value.newRunGeneration else old(runs)[op.runId].writerGeneration
      ensures old(Valid()) && IdentityKept(old(Value()), op) ==> Valid()
    {
      ghost var before := Value();
      accepted := if op.InsertRun? then op.runId !in runs else op.runId in runs;
      if accepted {
        var raised := EnforceSessionWriterEpoch(if op.InsertRun? then None else Some(runs[op.runId]), op.newRun);
        accepted := !raised;
      }
      if accepted {
        runs := runs[op.runId := op.newRun];
      }
      assert Value() == Step(before, op);
      if Sound(before.db) && IdentityKept(before, op) { StepKeepsSound(before, op); }
    }

    method WriteTranscriptEvent(op: Op) returns (accepted: bool)
      requires op.InsertEvent? || op.UpdateEvent?
      modifies `events
      ensures accepted == Accepted(old(Value()), op) && Value() == Step(old(Value()), op)
      ensures old(Valid()) && IdentityKept(old(Value()), op) ==> Valid()
    {
      ghost var before := Value();
      accepted := if op.InsertEvent? then op.eventId !in events else op.eventId in events;
      if accepted {
        var raised := EnforceSessionEventContract(if op.InsertEvent? then None else Some(events[op.eventId]), op.newEvent);
        accepted := !raised;
      }
      if accepted {
        events := events[op.eventId := op.newEvent];
      }
      assert Value() == Step(before, op);
      if Sound(before.db) && IdentityKept(before, op) { StepKeepsSound(before, op); }
    }

    method WriteAuthorityRow(op: Op) returns (accepted: bool)
      requires op.InsertRow? || op.UpdateRow?
      modifies `rows
      ensures accepted == Accepted(old(Value()), op) && Value() == Step(old(Value()), op)
      ensures old(Valid()) ==> Valid()
    {
      ghost var before := Value();
      var key := Key(op.newRow.TableOf(), op.rowId);
      accepted := if op.InsertRow? then key !in rows else key in rows;
      if accepted {
        var raised := EnforceSessionTenantBinding(if op.InsertRow? then None else Some(rows[key]), op.rowId, op.newRow);
        accepted := !raised;
      }
      if accepted {
        rows := rows[key := op.newRow];
      }
      assert Value() == Step(before, op);
      if Sound(before.db) { StepKeepsSound(before, op); }
    }
  }
}
