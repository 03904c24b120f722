/**
 What the demands mean together: everything a round leaves behind is of one run and of the turn that
 run has, a replacement saga's commands form one causation chain, and a consumed carry-forward was
 consumed by a round that exists. Each holds in every coherent state, and so in every state that a run
 reaches from one while it writes the linked columns once.
 */
module RoundCoherence {
  import opened Wrappers
  import opened SessionTables
  import opened BindingTrigger
  import opened EventTrigger
  import opened AuthorityRuns
  import opened RoundDemands

  lemma MetBy(db: Db, k: Key, d: Demand)
    requires Coherent(db) && k in db.rows && Demands(k.id, db.rows[k], d)
    ensures Met(db, d)
  {
    assert Demanded(db, d);
  }

  lemma FactMet(db: Db, k: Key, event: Uuid, fact: Fact)
    requires Coherent(db) && k in db.rows && Demands(k.id, db.rows[k], EventIs(event, fact))
    ensures event in db.events && HasFact(db.events[event], fact)
  {
    MetBy(db, k, EventIs(event, fact));
  }

  /** A V2 event that names a result or an invocation has round scope and names its own run. */
  lemma EventIsRoundScoped(db: Db, event: Uuid)
    requires Coherent(db) && event in db.events && db.events[event].schemaVersion == 2
    ensures RoundScoped(db.events[event])
  {
    MetByEvent(db, event, Holds(RoundScoped(db.events[event])));
  }

  lemma MetByEvent(db: Db, id: Uuid, d: Demand)
    requires Coherent(db) && id in db.events && EventDemands(db.events[id], d)
    ensures Met(db, d)
  {
    assert Demanded(db, d);
  }

  /** An obligation is of the turn of its run, by way of the model result it came from. */
  lemma ObligationHasRunsTurn(db: Db, id: Uuid)
    requires Coherent(db) && Key(RoundObligations, id) in db.rows
    ensures var o := db.rows[Key(RoundObligations, id)];
            o.RoundObligation? && RunHasTurn(db, o.run, o.turn)
  {
    var k := Key(RoundObligations, id);
    var o := db.rows[k];
    MetBy(db, k, ResultRun(o.sourceResult, o.run));
    MetBy(db, k, ResultTurn(o.sourceResult, o.turn));
    MetBy(db, Key(ModelResults, o.sourceResult), RunTurn(o.run, o.turn));
  }

  /** All obligations of a plan are of one run, one model result and one turn, that of the plan's run. */
  lemma PlanIsOfOneTurn(db: Db, id: Uuid, obligation: Uuid)
    requires Coherent(db) && Key(NextRoundPlans, id) in db.rows
    requires db.rows[Key(NextRoundPlans, id)].NextRoundPlan? && Lists(db.rows[Key(NextRoundPlans, id)].obligations, obligation)
    ensures var p := db.rows[Key(NextRoundPlans, id)];
            && Key(RoundObligations, obligation) in db.rows
            && var o := db.rows[Key(RoundObligations, obligation)];
            && o.RoundObligation? && o.run == p.run && o.sourceResult == p.sourceResult && RunHasTurn(db, p.run, o.turn)
  {
    var k := Key(NextRoundPlans, id);
    var p := db.rows[k];
    MetBy(db, k, ObligationRun(obligation, p.run));
    MetBy(db, k, ObligationFrom(obligation, p.sourceResult));
    ObligationHasRunsTurn(db, obligation);
  }

  /**
   An outcome ends the run it names in the turn that run has; its terminal event, if it is a V2 event,
   has round scope and names the same run, turn and model result.
   */
  lemma OutcomeEndsItsRun(db: Db, id: Uuid)
    requires Coherent(db) && Key(RunOutcomes, id) in db.rows
    ensures var r := db.rows[Key(RunOutcomes, id)];
            && r.RunOutcome? && RunHasTurn(db, r.run, r.turn)
            && (r.terminalEvent.Some? ==>
                  && r.terminalEvent.value in db.events
                  && var e := db.events[r.terminalEvent.value];
                  && e.result == Some(r.terminalResult) && e.run == Some(r.run) && ScopeField(e, "turn_id") == Some(r.turn)
                  && (e.schemaVersion == 2 ==>
                        Level(e) == Some("round") && ScopeField(e, "run_id") == Some(Text(r.run))))
  {
    var k := Key(RunOutcomes, id);
    var r := db.rows[k];
    MetBy(db, k, ResultRun(r.terminalResult, r.run));
    MetBy(db, k, ResultTurn(r.terminalResult, r.turn));
    MetBy(db, Key(ModelResults, r.terminalResult), RunTurn(r.run, r.turn));
    if r.terminalEvent.Some? {
      var event := r.terminalEvent.value;
      FactMet(db, k, event, OfResult(r.terminalResult));
      FactMet(db, k, event, OfRun(r.run));
      FactMet(db, k, event, OfTurn(r.turn));
      if db.events[event].schemaVersion == 2 { EventIsRoundScoped(db, event); }
    }
  }

  /** A tool invocation is of a round that has a model result. */
  lemma InvocationHasRound(db: Db, id: Uuid)
    requires Coherent(db) && Key(ToolInvocations, id) in db.rows
    ensures var r := db.rows[Key(ToolInvocations, id)];
            && r.ToolInvocation?
            && exists k :: k in db.rows && IsWitness(db.rows[k], SomeResult(r.tenant, r.session, r.run, r.round))
  {
    var k := Key(ToolInvocations, id);
    var r := db.rows[k];
    MetBy(db, k, SomeResult(r.tenant, r.session, r.run, r.round));
  }

  /** And the result event it points to answers it in its own run and round. */
  lemma InvocationIsAnsweredInItsRound(db: Db, id: Uuid, event: Uuid)
    requires Coherent(db) && Key(ToolInvocations, id) in db.rows
    requires var r := db.rows[Key(ToolInvocations, id)]; r.ToolInvocation? && r.resultEvent == Some(event)
    ensures var r := db.rows[Key(ToolInvocations, id)];
            && event in db.events
            && var e := db.events[event];
            && e.itemKind == Some("tool_result") && e.lifecycle == Some("completed") && e.invocation == Some(id)
            && e.run == Some(r.run) && ScopeField(e, "round_id") == Some(r.round)
            && (e.schemaVersion == 2 ==>
                  Level(e) == Some("round") && ScopeField(e, "run_id") == Some(Text(r.run)))
  {
    var k := Key(ToolInvocations, id);
    var r := db.rows[k];
    FactMet(db, k, event, IsToolResult);
    FactMet(db, k, event, OfInvocation(id));
    FactMet(db, k, event, OfRun(r.run));
    FactMet(db, k, event, OfRound(r.round));
    if db.events[event].schemaVersion == 2 { EventIsRoundScoped(db, event); }
  }

  /** A V2 event that names a model result names the result's run, turn and round. */
  lemma EventIsOfItsResult(db: Db, id: Uuid)
    requires Coherent(db) && id in db.events && db.events[id].schemaVersion == 2 && db.events[id].result.Some?
    ensures var e := db.events[id];
            && Level(e) == Some("round") && Key(ModelResults, e.result.value) in db.rows
            && var r := db.rows[Key(ModelResults, e.result.value)];
            && r.ModelResult? && e.run == Some(r.run) && ScopeField(e, "run_id") == Some(Text(r.run))
            && ScopeField(e, "turn_id") == Some(r.turn) && ScopeField(e, "round_id") == Some(r.round)
            && RunHasTurn(db, r.run, r.turn)
  {
    var e := db.events[id];
    EventIsRoundScoped(db, id);
    MetByEvent(db, id, ResultRun(e.result.value, e.run.value));
    MetByEvent(db, id, ResultTurn(e.result.value, ScopeField(e, "turn_id").value));
    MetByEvent(db, id, ResultRound(e.result.value, ScopeField(e, "round_id").value));
    var r := db.rows[Key(ModelResults, e.result.value)];
    MetBy(db, Key(ModelResults, e.result.value), RunTurn(r.run, r.turn));
  }

  /** The saga's command was caused by the command of the human input that is the replacement, and its old turn is the old run's. */
  lemma SagaFollowsHuman(db: Db, id: Uuid)
    requires Coherent(db) && Key(TurnReplacements, id) in db.rows
    ensures var r := db.rows[Key(TurnReplacements, id)];
            && r.TurnReplacement? && RunHasTurn(db, r.oldRun, r.oldTurn)
            && Key(Commands, r.command) in db.rows && Key(TurnInputs, r.replacementInput) in db.rows
            && SagaMeets(db.rows[Key(Commands, r.command)], db.rows[Key(TurnInputs, r.replacementInput)])
  {
    var k := Key(TurnReplacements, id);
    var r := db.rows[k];
    MetBy(db, k, RunTurn(r.oldRun, r.oldTurn));
    MetBy(db, k, SagaCause(r.command, r.replacementInput));
  }

  /** Its cancel command was caused by the saga's command, and the control that goes with it is of the old run. */
  lemma SagaCancelsOldRun(db: Db, id: Uuid, cancel: Uuid)
    requires Coherent(db) && Key(TurnReplacements, id) in db.rows
    requires var r := db.rows[Key(TurnReplacements, id)]; r.TurnReplacement? && r.cancelCommand == Some(cancel)
    ensures var r := db.rows[Key(TurnReplacements, id)];
            && Key(Commands, cancel) in db.rows && db.rows[Key(Commands, cancel)].Command?
            && db.rows[Key(Commands, cancel)].causation == Some(r.command)
            && r.cancelControl.Some? && Key(ControlInputs, r.cancelControl.value) in db.rows
            && var control := db.rows[Key(ControlInputs, r.cancelControl.value)];
            control.ControlInput? && control.command == cancel && control.expectedRun == r.oldRun
  {
    var k := Key(TurnReplacements, id);
    var r := db.rows[k];
    MetBy(db, k, Holds(r.cancelCommand.Some? <==> r.cancelControl.Some?));
    MetBy(db, k, CommandCause(cancel, r.command));
    MetBy(db, k, ControlOf(r.cancelControl.value, cancel, r.oldRun));
  }

  /** So the commands of a saga, from its cancel command to the human input, are one causation chain of one session. */
  lemma SagaIsOneChain(db: Db, id: Uuid, cancel: Uuid, human: Uuid)
    requires Coherent(db) && Sound(db) && Key(TurnReplacements, id) in db.rows
    requires var r := db.rows[Key(TurnReplacements, id)];
             && r.TurnReplacement? && r.cancelCommand == Some(cancel) && Key(TurnInputs, r.replacementInput) in db.rows
             && db.rows[Key(TurnInputs, r.replacementInput)].TurnInput?
             && db.rows[Key(TurnInputs, r.replacementInput)].command == human
    ensures CausationChain(db, [cancel, db.rows[Key(TurnReplacements, id)].command, human])
    ensures Key(Commands, cancel) in db.rows && Key(Commands, human) in db.rows
    ensures db.rows[Key(Commands, human)].SameFrame(db.rows[Key(Commands, cancel)])
  {
    var saga := db.rows[Key(TurnReplacements, id)].command;
    SagaFollowsHuman(db, id);
    SagaCancelsOldRun(db, id, cancel);
    CauseExists(db, saga, human);
    var chain := [cancel, saga, human];
    CausationStaysInSession(db, chain, 2);
  }

  lemma CauseExists(db: Db, command: Uuid, cause: Uuid)
    requires Sound(db) && Key(Commands, command) in db.rows && db.rows[Key(Commands, command)].Command?
    requires db.rows[Key(Commands, command)].causation == Some(cause)
    ensures Key(Commands, cause) in db.rows && db.rows[Key(Commands, cause)].Command?
  {
    assert RowSound(db, Key(Commands, command));
  }

  /** A carry-forward that names the event that consumed it has a target turn and round, and the event is of them. */
  lemma ConsumedCarryForwardHasEvent(db: Db, id: Uuid, event: Uuid)
    requires Coherent(db) && Key(CarryForwards, id) in db.rows
    requires var r := db.rows[Key(CarryForwards, id)]; r.CarryForward? && r.consumedEvent == Some(event)
    ensures var r := db.rows[Key(CarryForwards, id)];
            && r.targetTurn.Some? && r.targetRound.Some? && event in db.events
            && var e := db.events[event];
            e.item == Some(r.contextItem) && ScopeField(e, "turn_id") == r.targetTurn && ScopeField(e, "round_id") == r.targetRound
  {
    var k := Key(CarryForwards, id);
    var r := db.rows[k];
    MetBy(db, k, Holds(r.targetTurn.Some? && r.targetRound.Some?));
    FactMet(db, k, event, OfItem(r.contextItem));
    FactMet(db, k, event, OfTurn(r.targetTurn.value));
    FactMet(db, k, event, OfRound(r.targetRound.value));
  }

  /** And a model result of exactly that turn and round exists in its session. */
  lemma ConsumedCarryForwardHasRound(db: Db, id: Uuid, event: Uuid)
    requires Coherent(db) && Key(CarryForwards, id) in db.rows
    requires var r := db.rows[Key(CarryForwards, id)]; r.CarryForward? && r.consumedEvent == Some(event)
    ensures var r := db.rows[Key(CarryForwards, id)];
            && r.targetTurn.Some? && r.targetRound.Some?
            && exists k :: k in db.rows
                 && IsWitness(db.rows[k], SomeRound(r.tenant, r.session, r.targetTurn.value, r.targetRound.value))
  {
    var k := Key(CarryForwards, id);
    var r := db.rows[k];
    MetBy(db, k, Holds(r.targetTurn.Some? && r.targetRound.Some?));
    MetBy(db, k, SomeRound(r.tenant, r.session, r.targetTurn.value, r.targetRound.value));
  }

  /** A carry-forward carries what the hook run of its admission left, of the input that was admitted with its own command. */
  lemma CarryForwardFollowsAdmission(db: Db, id: Uuid)
    requires Coherent(db) && Key(CarryForwards, id) in db.rows
    ensures var r := db.rows[Key(CarryForwards, id)];
            && r.CarryForward? && Key(InputAdmissions, r.sourceAdmission) in db.rows
            && var a := db.rows[Key(InputAdmissions, r.sourceAdmission)];
            && a.Admission? && a.hookRun == r.sourceHookRun && a.input == r.sourceInput
            && Key(TurnInputs, r.sourceInput) in db.rows
            && var i := db.rows[Key(TurnInputs, r.sourceInput)];
            i.TurnInput? && i.command == a.command
  {
    var k := Key(CarryForwards, id);
    var r := db.rows[k];
    MetBy(db, k, AdmissionInput(r.sourceAdmission, r.sourceInput));
    MetBy(db, k, AdmissionHook(r.sourceAdmission, r.sourceHookRun));
    var a := db.rows[Key(InputAdmissions, r.sourceAdmission)];
    MetBy(db, Key(InputAdmissions, r.sourceAdmission), InputCommand(a.input, a.command));
  }
}
