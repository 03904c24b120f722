/**
 What rows and events demand of the columns of other rows, runs and events. Accepted writes meet all
 their demands; a later write keeps them met exactly when the new content of what it writes still meets
 what others demand of it.
 */
module RoundDemands {
  import opened Wrappers
  import opened SessionTables
  import opened BindingTrigger
  import opened EventTrigger
  import opened AuthorityRuns

  /* ---- Demands ---- */

  /** A column of an event. */
  datatype Fact =
    | OfResult(result: Uuid) | OfRun(run: Uuid) | OfTurn(turn: string) | OfRound(round: string)
    | OfInvocation(invocation: Uuid) | IsToolResult | OfItem(item: Uuid)

  datatype Demand =
    | RunTurn(ofRun: Uuid, turn: string)
    | ResultRun(id: Uuid, run: Uuid) | ResultTurn(id: Uuid, turn: string) | ResultRound(id: Uuid, round: string)
    | ObligationRun(id: Uuid, run: Uuid) | ObligationFrom(id: Uuid, result: Uuid)
    | InvocationRun(id: Uuid, run: Uuid) | InvocationRound(id: Uuid, round: string)
    | InputCommand(id: Uuid, command: Uuid)
    | AdmissionInput(id: Uuid, input: Uuid) | AdmissionHook(id: Uuid, hookRun: Uuid)
    | CommandCause(id: Uuid, cause: Uuid)
    | SagaCause(id: Uuid, input: Uuid)
    | ControlOf(id: Uuid, command: Uuid, run: Uuid)
    | EventIs(id: Uuid, fact: Fact)
    | SomeResult(tenant: Uuid, session: Uuid, run: Uuid, round: string)
    | SomeRound(tenant: Uuid, session: Uuid, turn: string, round: string)
    | Holds(condition: bool)

  predicate Lists(ids: IdArray, id: Uuid) {
    ids.Ids? && Some(id) in ids.elements
  }

  predicate OutcomeDemands(r: Row, d: Demand)
    requires r.RunOutcome?
  {
    || d == ResultRun(r.terminalResult, r.run) || d == ResultTurn(r.terminalResult, r.turn)
    || (r.terminalEvent.Some?
        && (|| d == EventIs(r.terminalEvent.value, OfResult(r.terminalResult))
            || d == EventIs(r.terminalEvent.value, OfRun(r.run))
            || d == EventIs(r.terminalEvent.value, OfTurn(r.turn))))
  }

  predicate InvocationDemands(id: Uuid, r: Row, d: Demand)
    requires r.ToolInvocation?
  {
    || d == SomeResult(r.tenant, r.session, r.run, r.round)
    || (r.resultEvent.Some?
        && (|| d == EventIs(r.resultEvent.value, IsToolResult)
            || d == EventIs(r.resultEvent.value, OfInvocation(id))
            || d == EventIs(r.resultEvent.value, OfRun(r.run))
            || d == EventIs(r.resultEvent.value, OfRound(r.round))))
  }

  predicate SagaDemands(r: Row, d: Demand)
    requires r.TurnReplacement?
  {
    || d == RunTurn(r.oldRun, r.oldTurn)
    || d == SagaCause(r.command, r.replacementInput)
    || d == Holds(r.cancelCommand.Some? <==> r.cancelControl.Some?)
    || (r.cancelCommand.Some? && d == CommandCause(r.cancelCommand.value, r.command))
    || (r.cancelCommand.Some? && r.cancelControl.Some?
        && d == ControlOf(r.cancelControl.value, r.cancelCommand.value, r.oldRun))
  }

  predicate CarryDemands(r: Row, d: Demand)
    requires r.CarryForward?
  {
    || d == AdmissionInput(r.sourceAdmission, r.sourceInput) || d == AdmissionHook(r.sourceAdmission, r.sourceHookRun)
    || (r.consumedEvent.Some?
        && (|| d == Holds(r.targetTurn.Some? && r.targetRound.Some?)
            || d == EventIs(r.consumedEvent.value, OfItem(r.contextItem))
            || (r.targetTurn.Some? && r.targetRound.Some?
                && (|| d == SomeRound(r.tenant, r.session, r.targetTurn.value, r.targetRound.value)
                    || d == EventIs(r.consumedEvent.value, OfTurn(r.targetTurn.value))
                    || d == EventIs(r.consumedEvent.value, OfRound(r.targetRound.value))))))
  }

  /** What a row demands. */
  predicate Demands(id: Uuid, r: Row, d: Demand) {
    match r
    case Admission(_, _, command, input, _, _, _, _) => d == InputCommand(input, command)
    case CarryForward(_, _, _, _, _, _, _, _, _) => CarryDemands(r, d)
    case TurnReplacement(_, _, _, _, _, _, _, _, _, _, _) => SagaDemands(r, d)
    case ToolInvocation(_, _, _, _, _, _) => InvocationDemands(id, r, d)
    case ModelResult(_, _, turn, run, _, _, _) => d == RunTurn(run, turn)
    case RoundObligation(_, _, turn, run, source) => d == ResultRun(source, run) || d == ResultTurn(source, turn)
    case NextRoundPlan(_, _, run, source, obligations) =>
      || d == ResultRun(source, run)
      || (d.ObligationRun? && d.run == run && Lists(obligations, d.id))
      || (d.ObligationFrom? && d.result == source && Lists(obligations, d.id))
    case RunOutcome(_, _, _, _, _, _) => OutcomeDemands(r, d)
    case _ => false
  }

  /** A V2 event that names a result or an invocation has round scope and names its own run in it. */
  predicate RoundScoped(e: Event) {
    e.result.Some? || e.invocation.Some? ==>
      && Level(e) == Some("round") && e.run.Some? && ScopeField(e, "run_id") == Some(Text(e.run.value))
      && ScopeField(e, "round_id").Some? && (e.result.Some? ==> ScopeField(e, "turn_id").Some?)
  }

  /** What an event demands. */
  predicate EventDemands(e: Event, d: Demand) {
    var turn, round := ScopeField(e, "turn_id"), ScopeField(e, "round_id");
    && e.schemaVersion == 2
    && (|| d == Holds(RoundScoped(e))
        || (e.result.Some? && e.run.Some? && d == ResultRun(e.result.value, e.run.value))
        || (e.result.Some? && turn.Some? && d == ResultTurn(e.result.value, turn.value))
        || (e.result.Some? && round.Some? && d == ResultRound(e.result.value, round.value))
        || (e.invocation.Some? && e.run.Some? && d == InvocationRun(e.invocation.value, e.run.value))
        || (e.invocation.Some? && round.Some? && d == InvocationRound(e.invocation.value, round.value)))
  }

  /* ---- Meeting them ---- */

  predicate HasFact(e: Event, fact: Fact) {
    match fact
    case OfResult(result) => e.result == Some(result)
    case OfRun(run) => e.run == Some(run)
    case OfTurn(turn) => ScopeField(e, "turn_id") == Some(turn)
    case OfRound(round) => ScopeField(e, "round_id") == Some(round)
    case OfInvocation(invocation) => e.invocation == Some(invocation)
    case IsToolResult => e.itemKind == Some("tool_result") && e.lifecycle == Some("completed")
    case OfItem(item) => e.item == Some(item)
  }

  /** What the row at a demanded key must be like. */
  predicate RowMeets(r: Row, d: Demand) {
    match d
    case ResultRun(_, run) => r.ModelResult? && r.run == run
    case ResultTurn(_, turn) => r.ModelResult? && r.turn == turn
    case ResultRound(_, round) => r.ModelResult? && r.round == round
    case ObligationRun(_, run) => r.RoundObligation? && r.run == run
    case ObligationFrom(_, result) => r.RoundObligation? && r.sourceResult == result
    case InvocationRun(_, run) => r.ToolInvocation? && r.run == run
    case InvocationRound(_, round) => r.ToolInvocation? && r.round == round
    case InputCommand(_, command) => r.TurnInput? && r.command == command
    case AdmissionInput(_, input) => r.Admission? && r.input == input
    case AdmissionHook(_, hookRun) => r.Admission? && r.hookRun == hookRun
    case CommandCause(_, cause) => r.Command? && r.causation == Some(cause)
    case ControlOf(_, command, run) => r.ControlInput? && r.command == command && r.expectedRun == run
    case _ => false
  }

  /** The key of the one row a demand is about. */
  function KeyOf(d: Demand): Option<Key> {
    match d
    case ResultRun(id, _) => Some(Key(ModelResults, id))
    case ResultTurn(id, _) => Some(Key(ModelResults, id))
    case ResultRound(id, _) => Some(Key(ModelResults, id))
    case ObligationRun(id, _) => Some(Key(RoundObligations, id))
    case ObligationFrom(id, _) => Some(Key(RoundObligations, id))
    case InvocationRun(id, _) => Some(Key(ToolInvocations, id))
    case InvocationRound(id, _) => Some(Key(ToolInvocations, id))
    case InputCommand(id, _) => Some(Key(TurnInputs, id))
    case AdmissionInput(id, _) => Some(Key(InputAdmissions, id))
    case AdmissionHook(id, _) => Some(Key(InputAdmissions, id))
    case CommandCause(id, _) => Some(Key(Commands, id))
    case ControlOf(id, _, _) => Some(Key(ControlInputs, id))
    case _ => None
  }

  /** A model result of the frame, run and round, or of the frame, turn and round. */
  predicate IsWitness(r: Row, d: Demand) {
    match d
    case SomeResult(tenant, session, run, round) =>
      r.ModelResult? && r.tenant == tenant && r.session == session && r.run == run && r.round == round
    case SomeRound(tenant, session, turn, round) =>
      r.ModelResult? && r.tenant == tenant && r.session == session && r.turn == turn && r.round == round
    case _ => false
  }

  /** The saga's command was caused by the command of the replacement input. */
  predicate SagaMeets(saga: Row, input: Row) {
    saga.Command? && input.TurnInput? && saga.causation == Some(input.command)
  }

  predicate Met(db: Db, d: Demand) {
    match d
    case RunTurn(run, turn) => RunHasTurn(db, run, turn)
    case SagaCause(id, input) =>
      && Key(Commands, id) in db.rows && Key(TurnInputs, input) in db.rows
      && SagaMeets(db.rows[Key(Commands, id)], db.rows[Key(TurnInputs, input)])
    case EventIs(id, fact) => id in db.events && HasFact(db.events[id], fact)
    case SomeResult(_, _, _, _) => exists k :: k in db.rows && IsWitness(db.rows[k], d)
    case SomeRound(_, _, _, _) => exists k :: k in db.rows && IsWitness(db.rows[k], d)
    case Holds(condition) => condition
    case _ => KeyOf(d).Some? && KeyOf(d).value in db.rows && RowMeets(db.rows[KeyOf(d).value], d)
  }

  ghost predicate Demanded(db: Db, d: Demand) {
    || (exists k :: k in db.rows && Demands(k.id, db.rows[k], d))
    || (exists id :: id in db.events && EventDemands(db.events[id], d))
  }

  ghost predicate Typed(db: Db) {
    forall k :: k in db.rows ==> db.rows[k].TableOf() == k.table
  }

  /** Every demand is met, and every row stands in the table it is of. */
  ghost predicate Coherent(db: Db) {
    Typed(db) && forall d :: Demanded(db, d) ==> Met(db, d)
  }

  /* ---- Accepted writes meet their demands ---- */

  lemma RoundBranchMeets(rev: Revision, db: Db, id: Uuid, r: Row, d: Demand)
    requires r.ModelResult? || r.RoundObligation? || r.NextRoundPlan?
    requires Branch(rev, db, id, r) && Demands(id, r, d)
    ensures Met(db, d)
  {
    if r.NextRoundPlan? && (d.ObligationRun? || d.ObligationFrom?) {
      var i :| 0 <= i < |r.obligations.elements| && r.obligations.elements[i] == Some(d.id);
      assert InFrame(db, RoundObligations, d.id, r.tenant, r.session);
    }
  }

  lemma OutcomeBranchMeets(rev: Revision, db: Db, r: Row, d: Demand)
    requires r.RunOutcome? && OutcomeBranch(rev, db, r) && OutcomeDemands(r, d)
    ensures Met(db, d)
  {
  }

  lemma InvocationBranchMeets(rev: Revision, db: Db, id: Uuid, r: Row, d: Demand)
    requires r.ToolInvocation? && ToolInvocationBranch(rev, db, id, r) && InvocationDemands(id, r, d)
    ensures Met(db, d)
  {
    if d.SomeResult? {
      var k :| k in db.rows && db.rows[k].ModelResult? && db.rows[k].SameFrame(r)
        && db.rows[k].run == r.run && db.rows[k].round == r.round;
      assert IsWitness(db.rows[k], d);
    }
  }

  lemma SagaBranchMeets(rev: Revision, db: Db, r: Row, d: Demand)
    requires r.TurnReplacement? && ReplacementBranch(rev, db, r) && SagaDemands(r, d)
    ensures Met(db, d)
  {
  }

  lemma CarryBranchMeets(rev: Revision, db: Db, r: Row, d: Demand)
    requires r.CarryForward? && CarryForwardBranch(db, r) && CarryDemands(r, d)
    ensures Met(db, d)
  {
    if d.SomeRound? {
      var k :| k in db.rows && db.rows[k].ModelResult? && db.rows[k].SameFrame(r)
        && Some(db.rows[k].turn) == r.targetTurn && db.rows[k].round == r.targetRound.value;
      assert IsWitness(db.rows[k], d);
    }
  }

  /** An accepted row's demands are met. */
  lemma BranchMeets(rev: Revision, db: Db, id: Uuid, r: Row, d: Demand)
    requires Branch(rev, db, id, r) && Demands(id, r, d)
    ensures Met(db, d)
  {
    if r.ModelResult? || r.RoundObligation? || r.NextRoundPlan? {
      RoundBranchMeets(rev, db, id, r, d);
    } else if r.RunOutcome? {
      OutcomeBranchMeets(rev, db, r, d);
    } else if r.ToolInvocation? {
      InvocationBranchMeets(rev, db, id, r, d);
    } else if r.TurnReplacement? {
      SagaBranchMeets(rev, db, r, d);
    } else if r.CarryForward? {
      CarryBranchMeets(rev, db, r, d);
    } else {
      assert AdmissionBranch(rev, db, r);
    }
  }

  /** So are an accepted V2 event's. */
  lemma EventMeets(rev: EventRevision, m: Matrices, db: Db, e: Event, d: Demand)
    requires V2Section(rev, m, db, e) && EventDemands(e, d)
    ensures Met(db, d)
  {
    ScopeIsExact(rev, m, e);
    if e.result.Some? || e.invocation.Some? { ResultsHaveRoundScope(rev, m, db, e); }
  }

  /* ---- What a write can disturb ---- */

  datatype Target = RunTarget(run: Uuid) | RowTarget(key: Key) | EventTarget(event: Uuid) | NoTarget

  function TargetOf(op: Op): Target {
    match op
    case InsertRun(id, _) => RunTarget(id)
    case UpdateRun(id, _) => RunTarget(id)
    case InsertRow(id, r) => RowTarget(Key(r.TableOf(), id))
    case UpdateRow(id, r) => RowTarget(Key(r.TableOf(), id))
    case InsertEvent(id, _) => EventTarget(id)
    case UpdateEvent(id, _) => EventTarget(id)
    case _ => NoTarget
  }

  /** The demand is about what stands at the target. */
  predicate Mentions(d: Demand, t: Target) {
    match d
    case RunTurn(run, _) => t == RunTarget(run)
    case SagaCause(id, input) => t == RowTarget(Key(Commands, id)) || t == RowTarget(Key(TurnInputs, input))
    case EventIs(id, _) => t == EventTarget(id)
    case SomeResult(_, _, _, _) => t.RowTarget? && t.key.table == ModelResults
    case SomeRound(_, _, _, _) => t.RowTarget? && t.key.table == ModelResults
    case Holds(_) => false
    case _ => KeyOf(d).Some? && t == RowTarget(KeyOf(d).value)
  }

  /** The new content meets the demand: its own columns do, or another row is the witness. */
  predicate NewMeets(db: Db, op: Op, d: Demand)
    requires TargetOf(op) != NoTarget && Mentions(d, TargetOf(op))
  {
    match d
    case RunTurn(run, turn) => TurnOf(run, op.newRun) == turn
    case SagaCause(id, input) =>
      if op.newRow.Command? then
        Key(TurnInputs, input) in db.rows && SagaMeets(op.newRow, db.rows[Key(TurnInputs, input)])
      else
        Key(Commands, id) in db.rows && SagaMeets(db.rows[Key(Commands, id)], op.newRow)
    case EventIs(_, fact) => HasFact(op.newEvent, fact)
    case SomeResult(_, _, _, _) => IsWitness(op.newRow, d) || WitnessElsewhere(db, Key(ModelResults, op.rowId), d)
    case SomeRound(_, _, _, _) => IsWitness(op.newRow, d) || WitnessElsewhere(db, Key(ModelResults, op.rowId), d)
    case _ => RowMeets(op.newRow, d)
  }

  predicate WitnessElsewhere(db: Db, key: Key, d: Demand) {
    exists k :: k in db.rows && k != key && IsWitness(db.rows[k], d)
  }

  lemma WitnessAfterWrite(a: Db, b: Db, key: Key, r: Row, d: Demand)
    requires b.rows == a.rows[key := r]
    ensures (exists k :: k in b.rows && IsWitness(b.rows[k], d)) <==> IsWitness(r, d) || WitnessElsewhere(a, key, d)
  {
    if IsWitness(r, d) { assert key in b.rows && IsWitness(b.rows[key], d); }
    if WitnessElsewhere(a, key, d) {
      var k :| k in a.rows && k != key && IsWitness(a.rows[k], d);
      assert k in b.rows && IsWitness(b.rows[k], d);
    }
  }

  /** A write of one row. */
  predicate RowWritten(a: Db, b: Db, key: Key, r: Row) {
    b == a.(rows := a.rows[key := r])
  }

  lemma KeyedAfterWrite(a: Db, b: Db, op: Op, d: Demand)
    requires (op.InsertRow? || op.UpdateRow?) && KeyOf(d).Some?
    requires RowWritten(a, b, Key(op.newRow.TableOf(), op.rowId), op.newRow)
    ensures Mentions(d, TargetOf(op)) ==> (Met(b, d) <==> NewMeets(a, op, d))
    ensures !Mentions(d, TargetOf(op)) && Met(a, d) ==> Met(b, d)
  {
  }

  lemma SagaAfterWrite(a: Db, b: Db, op: Op, d: Demand)
    requires (op.InsertRow? || op.UpdateRow?) && d.SagaCause?
    requires RowWritten(a, b, Key(op.newRow.TableOf(), op.rowId), op.newRow)
    ensures Mentions(d, TargetOf(op)) ==> (Met(b, d) <==> NewMeets(a, op, d))
    ensures !Mentions(d, TargetOf(op)) && Met(a, d) ==> Met(b, d)
  {
  }

  lemma WitnessUndisturbed(a: Db, b: Db, key: Key, r: Row, d: Demand)
    requires Typed(a) && b.rows == a.rows[key := r] && key.table != ModelResults && (d.SomeResult? || d.SomeRound?)
    ensures Met(a, d) ==> Met(b, d)
  {
    if Met(a, d) {
      var k :| k in a.rows && IsWitness(a.rows[k], d);
      assert k.table == ModelResults;
      assert k in b.rows && IsWitness(b.rows[k], d);
    }
  }

  lemma WitnessedAfterWrite(a: Db, b: Db, op: Op, d: Demand)
    requires Typed(a) && (op.InsertRow? || op.UpdateRow?) && (d.SomeResult? || d.SomeRound?)
    requires RowWritten(a, b, Key(op.newRow.TableOf(), op.rowId), op.newRow)
    ensures Mentions(d, TargetOf(op)) ==> (Met(b, d) <==> NewMeets(a, op, d))
    ensures !Mentions(d, TargetOf(op)) && Met(a, d) ==> Met(b, d)
  {
    var key := Key(op.newRow.TableOf(), op.rowId);
    if key.table == ModelResults {
      WitnessAfterWrite(a, b, key, op.newRow, d);
    } else {
      WitnessUndisturbed(a, b, key, op.newRow, d);
    }
  }

  /** After a write of a row, a demand about it is met exactly if the new row meets it; the others stay met. */
  lemma RowWriteMeets(a: Db, b: Db, op: Op, d: Demand)
    requires Typed(a) && (op.InsertRow? || op.UpdateRow?)
    requires RowWritten(a, b, Key(op.newRow.TableOf(), op.rowId), op.newRow)
    ensures Mentions(d, TargetOf(op)) ==> (Met(b, d) <==> NewMeets(a, op, d))
    ensures !Mentions(d, TargetOf(op)) && Met(a, d) ==> Met(b, d)
  {
    if KeyOf(d).Some? {
      KeyedAfterWrite(a, b, op, d);
    } else if d.SagaCause? {
      SagaAfterWrite(a, b, op, d);
    } else if d.SomeResult? || d.SomeRound? {
      WitnessedAfterWrite(a, b, op, d);
    }
  }

  lemma RunWriteMeets(a: Db, b: Db, op: Op, d: Demand)
    requires (op.InsertRun? || op.UpdateRun?) && b == a.(runs := a.runs[op.runId := op.newRun])
    ensures Mentions(d, TargetOf(op)) ==> (Met(b, d) <==> NewMeets(a, op, d))
    ensures !Mentions(d, TargetOf(op)) && Met(a, d) ==> Met(b, d)
  {
  }

  lemma EventWriteMeets(a: Db, b: Db, op: Op, d: Demand)
    requires (op.InsertEvent? || op.UpdateEvent?) && b == a.(events := a.events[op.eventId := op.newEvent])
    ensures Mentions(d, TargetOf(op)) ==> (Met(b, d) <==> NewMeets(a, op, d))
    ensures !Mentions(d, TargetOf(op)) && Met(a, d) ==> Met(b, d)
  {
  }

  lemma OtherWriteMeets(a: Db, b: Db, d: Demand)
    requires b.rows == a.rows && b.runs == a.runs && b.events == a.events
    ensures Met(a, d) ==> Met(b, d)
  {
  }

  /** What an accepted operation writes. */
  predicate Written(a: Db, b: Db, op: Op) {
    if op.InsertRow? || op.UpdateRow? then RowWritten(a, b, Key(op.newRow.TableOf(), op.rowId), op.newRow)
    else if op.InsertRun? || op.UpdateRun? then b == a.(runs := a.runs[op.runId := op.newRun])
    else if op.InsertEvent? || op.UpdateEvent? then b == a.(events := a.events[op.eventId := op.newEvent])
    else b.rows == a.rows && b.runs == a.runs && b.events == a.events
  }

  lemma StepWrites(s: State, op: Op)
    requires Accepted(s, op)
    ensures Written(s.db, Step(s, op).db, op)
  {
  }

  /** The same, for any write. */
  lemma WriteMeets(a: Db, b: Db, op: Op, d: Demand)
    requires Typed(a) && Written(a, b, op)
    ensures Mentions(d, TargetOf(op)) ==> (Met(b, d) <==> NewMeets(a, op, d))
    ensures !Mentions(d, TargetOf(op)) && Met(a, d) ==> Met(b, d)
  {
    if op.InsertRow? || op.UpdateRow? {
      RowWriteMeets(a, b, op, d);
    } else if op.InsertRun? || op.UpdateRun? {
      RunWriteMeets(a, b, op, d);
    } else if op.InsertEvent? || op.UpdateEvent? {
      EventWriteMeets(a, b, op, d);
    } else {
      OtherWriteMeets(a, b, d);
    }
  }

  lemma NewRowMeets(s: State, op: Op, d: Demand)
    requires (op.InsertRow? || op.UpdateRow?) && Accepted(s, op) && Demands(op.rowId, op.newRow, d)
    ensures Met(s.db, d)
  {
    BranchMeets(s.binding, s.db, op.rowId, op.newRow, d);
  }

  lemma NewEventMeets(s: State, op: Op, d: Demand)
    requires Coherent(s.db) && (op.InsertEvent? || op.UpdateEvent?) && Accepted(s, op) && EventDemands(op.newEvent, d)
    ensures Met(s.db, d)
  {
    var prior := if op.InsertEvent? then None else Some(s.db.events[op.eventId]);
    if ProjectionOnly(s.event, prior, op.newEvent) {
      assert Canonical(op.newEvent) == Canonical(prior.value);
      SameDemands(prior.value, op.newEvent, d);
      assert Demanded(s.db, d);
    } else {
      EventMeets(s.event, s.matrices, s.db, op.newEvent, d);
    }
  }

  lemma SameDemands(e: Event, f: Event, d: Demand)
    requires Canonical(e) == Canonical(f)
    ensures EventDemands(e, d) <==> EventDemands(f, d)
  {
    assert Canonical(e).scope == e.scope && Canonical(f).scope == f.scope;
    assert Canonical(e).result == e.result && Canonical(f).result == f.result;
    assert Canonical(e).run == e.run && Canonical(f).run == f.run;
    assert Canonical(e).invocation == e.invocation && Canonical(f).invocation == f.invocation;
    assert Canonical(e).schemaVersion == e.schemaVersion && Canonical(f).schemaVersion == f.schemaVersion;
  }

  /** What is written has its own demands met. */
  ghost predicate OwnDemandsMet(db: Db, op: Op) {
    && (op.InsertRow? || op.UpdateRow? ==> forall d :: Demands(op.rowId, op.newRow, d) ==> Met(db, d))
    && (op.InsertEvent? || op.UpdateEvent? ==> forall d :: EventDemands(op.newEvent, d) ==> Met(db, d))
  }

  lemma AcceptedDemandsMet(s: State, op: Op)
    requires Coherent(s.db) && Accepted(s, op)
    ensures OwnDemandsMet(s.db, op)
  {
    if op.InsertRow? || op.UpdateRow? {
      forall d | Demands(op.rowId, op.newRow, d) ensures Met(s.db, d) { NewRowMeets(s, op, d); }
    } else if op.InsertEvent? || op.UpdateEvent? {
      forall d | EventDemands(op.newEvent, d) ensures Met(s.db, d) { NewEventMeets(s, op, d); }
    }
  }

  /** A write changes what stands at its target and nothing else. */
  lemma RowAfterWrite(a: Db, b: Db, op: Op, k: Key)
    requires Written(a, b, op)
    ensures TargetOf(op) != RowTarget(k) ==> (k in a.rows <==> k in b.rows) && (k in b.rows ==> a.rows[k] == b.rows[k])
    ensures TargetOf(op) == RowTarget(k) ==>
              (op.InsertRow? || op.UpdateRow?) && k.id == op.rowId && k in b.rows && b.rows[k] == op.newRow
  {
  }

  lemma EventAfterWrite(a: Db, b: Db, op: Op, id: Uuid)
    requires Written(a, b, op)
    ensures TargetOf(op) != EventTarget(id) ==>
              (id in a.events <==> id in b.events) && (id in b.events ==> a.events[id] == b.events[id])
    ensures TargetOf(op) == EventTarget(id) ==>
              (op.InsertEvent? || op.UpdateEvent?) && id == op.eventId && id in b.events && b.events[id] == op.newEvent
  {
  }

  lemma RowDemandAfter(a: Db, b: Db, op: Op, k: Key, d: Demand)
    requires Coherent(a) && OwnDemandsMet(a, op) && Written(a, b, op)
    requires k in b.rows && b.rows[k].TableOf() == k.table && Demands(k.id, b.rows[k], d)
    ensures Met(a, d) && (Mentions(d, TargetOf(op)) ==> Demanded(a, d))
  {
    RowAfterWrite(a, b, op, k);
    if TargetOf(op) == RowTarget(k) {
      OwnRowDemand(k.id, b.rows[k], d);
    } else {
      assert Demands(k.id, a.rows[k], d);
    }
  }

  lemma EventDemandAfter(a: Db, b: Db, op: Op, id: Uuid, d: Demand)
    requires Coherent(a) && OwnDemandsMet(a, op) && Written(a, b, op)
    requires id in b.events && EventDemands(b.events[id], d)
    ensures Met(a, d) && (Mentions(d, TargetOf(op)) ==> Demanded(a, d))
  {
    EventAfterWrite(a, b, op, id);
    if TargetOf(op) == EventTarget(id) {
      OwnEventDemand(id, b.events[id], d);
    } else {
      assert EventDemands(a.events[id], d);
    }
  }

  /** A demand after the write was there before, or it is the written row's or event's own and met at once. */
  lemma DemandedAfter(a: Db, b: Db, op: Op, d: Demand)
    requires Coherent(a) && OwnDemandsMet(a, op) && Written(a, b, op) && Typed(b) && Demanded(b, d)
    ensures Met(a, d) && (Mentions(d, TargetOf(op)) ==> Demanded(a, d))
  {
    if k :| k in b.rows && Demands(k.id, b.rows[k], d) {
      RowDemandAfter(a, b, op, k, d);
    } else {
      var id :| id in b.events && EventDemands(b.events[id], d);
      EventDemandAfter(a, b, op, id, d);
    }
  }

  /** Nothing demands anything of itself. */
  lemma OwnRowDemand(id: Uuid, r: Row, d: Demand)
    requires Demands(id, r, d)
    ensures !Mentions(d, RowTarget(Key(r.TableOf(), id)))
  {
  }

  lemma OwnEventDemand(id: Uuid, e: Event, d: Demand)
    requires EventDemands(e, d)
    ensures !Mentions(d, EventTarget(id))
  {
  }

  /** A demand about what is written is still there after the write. */
  lemma StillDemanded(a: Db, b: Db, op: Op, d: Demand)
    requires Typed(a) && Written(a, b, op) && Demanded(a, d) && Mentions(d, TargetOf(op))
    ensures Demanded(b, d)
  {
    if k :| k in a.rows && Demands(k.id, a.rows[k], d) {
      OwnRowDemand(k.id, a.rows[k], d);
      RowAfterWrite(a, b, op, k);
      assert Demands(k.id, b.rows[k], d);
    } else {
      var id :| id in a.events && EventDemands(a.events[id], d);
      OwnEventDemand(id, a.events[id], d);
      EventAfterWrite(a, b, op, id);
      assert EventDemands(b.events[id], d);
    }
  }

  /* ---- Steps and runs ---- */

  /** The new content meets everything other rows and events demand of what is written. */
  ghost predicate Respected(db: Db, op: Op) {
    forall d :: Demanded(db, d) && Mentions(d, TargetOf(op)) ==> NewMeets(db, op, d)
  }

  lemma WriteKeepsTyped(a: Db, b: Db, op: Op)
    requires Typed(a) && Written(a, b, op)
    ensures Typed(b)
  {
  }

  lemma WriteKeepsCoherentExactly(a: Db, b: Db, op: Op)
    requires Coherent(a) && OwnDemandsMet(a, op) && Written(a, b, op)
    ensures Coherent(b) <==> Respected(a, op)
  {
    WriteKeepsTyped(a, b, op);
    if Respected(a, op) {
      forall d | Demanded(b, d) ensures Met(b, d) {
        DemandedAfter(a, b, op, d);
        WriteMeets(a, b, op, d);
      }
    }
    if Coherent(b) {
      forall d | Demanded(a, d) && Mentions(d, TargetOf(op)) ensures NewMeets(a, op, d) {
        StillDemanded(a, b, op, d);
        WriteMeets(a, b, op, d);
      }
    }
  }

  /**
   An accepted step keeps all demands met exactly when the new content of what it writes meets what
   others demand of it.
   */
  lemma StepKeepsCoherentExactly(s: State, op: Op)
    requires Coherent(s.db) && Accepted(s, op)
    ensures Coherent(Step(s, op).db) <==> Respected(s.db, op)
  {
    AcceptedDemandsMet(s, op);
    StepWrites(s, op);
    WriteKeepsCoherentExactly(s.db, Step(s, op).db, op);
  }

  /** The columns of a row that others may demand something of. */
  predicate SameLinks(a: Row, b: Row) {
    match a
    case ModelResult(_, _, turn, run, round, _, _) => b.ModelResult? && b.turn == turn && b.run == run && b.round == round
    case RoundObligation(_, _, _, run, source) => b.RoundObligation? && b.run == run && b.sourceResult == source
    case ToolInvocation(_, _, run, round, _, _) => b.ToolInvocation? && b.run == run && b.round == round
    case Command(_, _, causation, _, _) => b.Command? && b.causation == causation
    case TurnInput(_, _, command, _, _, _, _, _, _) => b.TurnInput? && b.command == command
    case Admission(_, _, _, input, _, hookRun, _, _) => b.Admission? && b.input == input && b.hookRun == hookRun
    case ControlInput(_, _, command, _, run, _) => b.ControlInput? && b.command == command && b.expectedRun == run
    case _ => true
  }

  predicate SameFacts(a: Event, b: Event) {
    && a.result == b.result && a.run == b.run && a.scope == b.scope && a.invocation == b.invocation
    && a.itemKind == b.itemKind && a.lifecycle == b.lifecycle && a.item == b.item
  }

  /** Those columns, the turn of a run and the facts of an event are written once. */
  predicate LinksKept(s: State, op: Op) {
    match op
    case UpdateRun(id, r) => id in s.db.runs ==> TurnOf(id, r) == TurnOf(id, s.db.runs[id])
    case UpdateRow(id, r) => Key(r.TableOf(), id) in s.db.rows ==> SameLinks(s.db.rows[Key(r.TableOf(), id)], r)
    case UpdateEvent(id, e) => id in s.db.events ==> SameFacts(s.db.events[id], e)
    case _ => true
  }

  predicate LinksKeptRun(s: State, ops: seq<Op>)
    decreases |ops|
  {
    ops == [] || (LinksKept(s, ops[0]) && LinksKeptRun(Step(s, ops[0]), ops[1..]))
  }

  lemma KeptWitness(a: Db, key: Key, r: Row, d: Demand)
    requires d.SomeResult? || d.SomeRound?
    requires Met(a, d) && (key in a.rows && IsWitness(a.rows[key], d) ==> IsWitness(r, d))
    ensures IsWitness(r, d) || WitnessElsewhere(a, key, d)
  {
    var k :| k in a.rows && IsWitness(a.rows[k], d);
    if k != key { assert WitnessElsewhere(a, key, d); }
  }

  lemma LinksMeetAlike(a: Row, b: Row, d: Demand)
    requires SameLinks(a, b) && RowMeets(a, d)
    ensures RowMeets(b, d)
  {
  }

  lemma FactsMeetAlike(a: Event, b: Event, fact: Fact)
    requires SameFacts(a, b) && HasFact(a, fact)
    ensures HasFact(b, fact)
  {
  }

  lemma KeptRowLinksMeet(a: Db, op: Op, d: Demand)
    requires Typed(a) && (op.InsertRow? || op.UpdateRow?) && Met(a, d) && Mentions(d, TargetOf(op))
    requires var key := Key(op.newRow.TableOf(), op.rowId);
             key in a.rows ==> SameLinks(a.rows[key], op.newRow) && op.newRow.SameFrame(a.rows[key])
    ensures NewMeets(a, op, d)
  {
    var key := Key(op.newRow.TableOf(), op.rowId);
    if d.SomeResult? || d.SomeRound? {
      KeptWitness(a, key, op.newRow, d);
    } else if KeyOf(d).Some? {
      LinksMeetAlike(a.rows[key], op.newRow, d);
    }
  }

  lemma KeptLinksMeet(s: State, op: Op, d: Demand)
    requires Typed(s.db) && Accepted(s, op) && LinksKept(s, op) && Met(s.db, d) && Mentions(d, TargetOf(op))
    ensures NewMeets(s.db, op, d)
  {
    if op.InsertRow? || op.UpdateRow? {
      KeptRowLinksMeet(s.db, op, d);
    } else if op.UpdateEvent? {
      FactsMeetAlike(s.db.events[op.eventId], op.newEvent, d.fact);
    }
  }

  /** A write that keeps those columns respects every demand; so does every insert. */
  lemma KeptLinksAreRespected(s: State, op: Op)
    requires Coherent(s.db) && Accepted(s, op) && LinksKept(s, op)
    ensures Respected(s.db, op)
  {
    forall d | Demanded(s.db, d) && Mentions(d, TargetOf(op)) ensures NewMeets(s.db, op, d) {
      KeptLinksMeet(s, op, d);
    }
  }

  /** Over any run that writes those columns once, all demands stay met. */
  lemma {:induction false} RunsStayCoherent(s: State, ops: seq<Op>)
    requires Coherent(s.db) && LinksKeptRun(s, ops)
    ensures Coherent(Run(s, ops).db)
    decreases |ops|
  {
    if ops != [] {
      if Accepted(s, ops[0]) {
        KeptLinksAreRespected(s, ops[0]);
        StepKeepsCoherentExactly(s, ops[0]);
      }
      RunsStayCoherent(Step(s, ops[0]), ops[1..]);
    }
  }

  /* ---- Which update of a column breaks them ---- */

  /** Some model result or replacement saga is of the run. */
  predicate NamesTurnOf(db: Db, run: Uuid) {
    exists k :: k in db.rows
      && ((db.rows[k].ModelResult? && db.rows[k].run == run) || (db.rows[k].TurnReplacement? && db.rows[k].oldRun == run))
  }

  /** An accepted update of a run breaks a demand exactly when it changes the turn of a run that has results or sagas. */
  lemma TurnChangeBreaksExactly(s: State, run: Uuid, newest: RuntimeTask)
    requires Coherent(s.db) && Accepted(s, UpdateRun(run, newest))
    ensures Coherent(Step(s, UpdateRun(run, newest)).db)
            <==> TurnOf(run, newest) == TurnOf(run, s.db.runs[run]) || !NamesTurnOf(s.db, run)
  {
    var op := UpdateRun(run, newest);
    StepKeepsCoherentExactly(s, op);
    if NamesTurnOf(s.db, run) {
      var k :| k in s.db.rows
        && ((s.db.rows[k].ModelResult? && s.db.rows[k].run == run) || (s.db.rows[k].TurnReplacement? && s.db.rows[k].oldRun == run));
      var d := RunTurn(run, if s.db.rows[k].ModelResult? then s.db.rows[k].turn else s.db.rows[k].oldTurn);
      assert Demands(k.id, s.db.rows[k], d) && Demanded(s.db, d);
      assert Met(s.db, d);
      if Respected(s.db, op) { assert NewMeets(s.db, op, d); }
    }
    forall d | Demanded(s.db, d) && Mentions(d, TargetOf(op))
      ensures d.RunTurn? && d.ofRun == run && d.turn == TurnOf(run, s.db.runs[run]) && NamesTurnOf(s.db, run)
    {
      TurnIsDemandedByRows(s.db, d, run);
    }
  }

  lemma TurnIsDemandedByRows(db: Db, d: Demand, run: Uuid)
    requires Coherent(db) && Demanded(db, d) && Mentions(d, RunTarget(run))
    ensures d.RunTurn? && d.ofRun == run && RunHasTurn(db, run, d.turn) && NamesTurnOf(db, run)
  {
    assert Met(db, d);
    if k :| k in db.rows && Demands(k.id, db.rows[k], d) {
      TurnOfRow(k.id, db.rows[k], d);
    } else {
      var id :| id in db.events && EventDemands(db.events[id], d);
      NoTurnOfEvent(db.events[id], d);
    }
  }

  lemma TurnOfRow(id: Uuid, r: Row, d: Demand)
    requires Demands(id, r, d) && d.RunTurn?
    ensures (r.ModelResult? && r.run == d.ofRun) || (r.TurnReplacement? && r.oldRun == d.ofRun)
  {
  }

  lemma NoTurnOfEvent(e: Event, d: Demand)
    requires EventDemands(e, d)
    ensures !d.RunTurn?
  {
  }
}
