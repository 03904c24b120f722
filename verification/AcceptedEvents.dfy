/**
 Exactly which events and runs the triggers accept, said without their sections: what an event must be
 like in itself (envelope, scope, payload), who may write it, and that its references stay in its frame
 and its demands are met. What may change without any of this is the projection side-car alone.
 */
module AcceptedEvents {
  import opened Wrappers
  import opened SessionTables
  import opened BindingTrigger
  import opened EventTrigger
  import opened AuthorityRuns
  import opened RoundDemands

  /* ---- Who writes ---- */

  /** The text names the session: to the letter, and from the last revision on in any spelling. */
  predicate Names(rev: EventRevision, text: Option<string>, session: Uuid) {
    text == Some(Text(session)) || (rev == EventPeerA2a0717 && text.Some? && Normalize(text.value) == session)
  }

  predicate FromParentSide(rev: EventRevision, run: RuntimeTask, e: Event) {
    run.parentAgent == Some(e.agent) && Names(rev, run.parentSession, e.session)
  }

  /** The child side is the child agent's, or the parent agent's where there is no child agent. */
  predicate FromChildSide(rev: EventRevision, run: RuntimeTask, e: Event) {
    && (run.childAgent == Some(e.agent) || (run.childAgent.None? && run.parentAgent == Some(e.agent)))
    && Names(rev, run.childSession, e.session)
  }

  /** The run's child side writes legacy events from the root-ledger revision on, and all events from the last. */
  predicate WritesOwn(rev: EventRevision, db: Db, e: Event) {
    e.run.Some? ==>
      && e.run.value in db.runs
      && var run := db.runs[e.run.value];
      && run.tenant == e.tenant
      && (|| FromParentSide(rev, run, e)
          || (FromChildSide(rev, run, e)
              && (rev == EventPeerA2a0717 || (rev == EventRootLedger0716 && e.schemaVersion != 2))))
  }

  /** The generation that writes events of this schema. */
  function WriterOf(e: Event): int {
    if e.schemaVersion == 2 then 2 else 1
  }

  /**
   Under enforcement only the generation of the schema writes, while it is allowed, and legacy events
   need a run and draining; a legacy event of a run needs the run's generation allowed in any case.
   */
  predicate WriterAllowed(db: Db, e: Event) {
    && (db.epoch.Some? && db.epoch.value.enforce ==>
          && (e.schemaVersion == 2 || (e.run.Some? && db.epoch.value.state == "v1_draining"))
          && (e.run.Some? ==>
                && e.run.value in db.runs && db.runs[e.run.value].writerGeneration == WriterOf(e)
                && WriterOf(e) in db.epoch.value.allowed))
    && (e.schemaVersion != 2 && e.run.Some? ==>
          && db.epoch.Some? && e.run.value in db.runs
          && db.runs[e.run.value].writerGeneration in db.epoch.value.allowed)
  }

  lemma WritersExactly(rev: EventRevision, db: Db, e: Event)
    requires e.schemaVersion != 2
    ensures EpochSection(db, e) && LegacySection(rev, db, e) <==> WriterAllowed(db, e) && WritesOwn(rev, db, e)
  {
    NormalizedTextIsExact(e.session);
  }

  lemma V2WritersExactly(rev: EventRevision, db: Db, e: Event)
    requires e.schemaVersion == 2
    ensures EpochSection(db, e) <==> WriterAllowed(db, e)
    ensures (e.run.Some? ==>
               e.run.value in db.runs && db.runs[e.run.value].tenant == e.tenant && V2RunBound(rev, db.runs[e.run.value], e))
            <==> WritesOwn(rev, db, e)
  {
    NormalizedTextIsExact(e.session);
  }

  /* ---- Envelope and scope ---- */

  /** The revisions from the admission revision on. */
  predicate Revised(rev: EventRevision) {
    rev != Event0716 && rev != EventInputControl0716
  }

  /** The rule tables allow the kind with its lifecycle and level. */
  predicate RuleAllows(rev: EventRevision, m: Matrices, kind: string, lifecycle: string, level: string) {
    if Revised(rev) && kind == "carry_forward" then
      level == "round" && lifecycle in {"bound", "claimed", "consumed", "needs_reconciliation", "reconciled"}
    else if Revised(rev) && kind == "control_input" then
      && (level == "run" || level == "session")
      && lifecycle in {"accepted", "applied", "failed", "needs_reconciliation", "reconciled", "rejected", "started"}
    else
      kind in m.events && lifecycle in m.events[kind].lifecycles && level in m.events[kind].scopes
  }

  /** The document names the event's session twice, in one spelling. */
  predicate InSession(e: Event, scope: map<string, Json>) {
    && "session_id" in scope && "thread_id" in scope
    && scope["session_id"].AsText().Some? && scope["session_id"].AsText() == scope["thread_id"].AsText()
    && Normalize(scope["session_id"].AsText().value) == e.session
  }

  predicate Filled(scope: map<string, Json>, key: string) {
    key in scope && scope[key].AsText().Some? && scope[key].AsText() != Some("")
  }

  predicate InRun(e: Event, scope: map<string, Json>) {
    e.run.Some? && "run_id" in scope && scope["run_id"].AsText() == Some(Text(e.run.value))
  }

  /** The scope document of each level: exactly these keys, and what stands under them. */
  predicate ScopeOf(e: Event, scope: map<string, Json>, level: string) {
    && InSession(e, scope)
    && "level" in scope && scope["level"].AsText() == Some(level)
    && match level
       case "session" => scope.Keys == {"level", "session_id", "thread_id"} && e.run.None?
       case "turn" =>
         && scope.Keys == {"level", "session_id", "thread_id", "turn_id"} && e.run.None?
         && Filled(scope, "turn_id")
       case "run" =>
         && scope.Keys == {"level", "session_id", "thread_id", "turn_id", "run_id"} && InRun(e, scope)
         && Filled(scope, "turn_id")
       case "round" =>
         && scope.Keys == {"level", "session_id", "thread_id", "turn_id", "run_id", "round_id"} && InRun(e, scope)
         && Filled(scope, "turn_id") && Filled(scope, "round_id")
       case _ => false
  }

  /** What an event says it is: its type and its payload schema are made of kind and lifecycle. */
  predicate Labelled(e: Event) {
    && e.item.Some? && e.itemKind.Some? && e.lifecycle.Some?
    && e.eventType == e.itemKind.value + "." + e.lifecycle.value
    && e.payloadSchema == Some("hive.session.payload." + e.itemKind.value + "." + e.lifecycle.value + ".v2")
  }

  predicate WellScoped(rev: EventRevision, m: Matrices, e: Event) {
    && Labelled(e) && e.scope.Some? && e.scope.value.JObject?
    && Level(e).Some?
    && RuleAllows(rev, m, e.itemKind.value, e.lifecycle.value, Level(e).value)
    && ScopeOf(e, e.scope.value.fields, Level(e).value)
  }

  lemma RulesExactly(rev: EventRevision, m: Matrices, kind: string, lifecycle: string, level: string)
    ensures RuleAllows(rev, m, kind, lifecycle, level)
            <==> kind in RulesAt(rev, m) && lifecycle in RulesAt(rev, m)[kind].lifecycles
                 && level in RulesAt(rev, m)[kind].scopes
  {
  }

  /** A document with the keys of its level, and a level, has one of the four levels and all of its keys. */
  lemma SectionScopes(e: Event, scope: map<string, Json>)
    requires e.scope == Some(JObject(scope)) && ScopeSection(e)
    ensures Level(e).Some? && ScopeOf(e, scope, Level(e).value)
  {
    FieldIsThere(scope, "session_id");
    FieldIsThere(scope, "thread_id");
    assert "session_id" in AllowedScopeKeys(Level(e));
    FieldIsThere(scope, "level");
    if Level(e) != Some("session") { FieldIsThere(scope, "turn_id"); }
    if Level(e) == Some("run") || Level(e) == Some("round") { FieldIsThere(scope, "run_id"); }
    if Level(e) == Some("round") { FieldIsThere(scope, "round_id"); }
    assert scope.Keys == AllowedScopeKeys(Level(e));
  }

  lemma ScopeIsSection(e: Event, scope: map<string, Json>)
    requires e.scope == Some(JObject(scope)) && Level(e).Some? && ScopeOf(e, scope, Level(e).value)
    ensures ScopeSection(e)
  {
    if e.run.Some? { assert Text(e.run.value)[8] == '-'; }
    assert scope["session_id"].AsText() != Some("");
  }

  lemma ScopeExactly(e: Event)
    requires e.scope.Some? && e.scope.value.JObject?
    ensures ScopeSection(e) <==> Level(e).Some? && ScopeOf(e, e.scope.value.fields, Level(e).value)
  {
    if ScopeSection(e) { SectionScopes(e, e.scope.value.fields); }
    if Level(e).Some? && ScopeOf(e, e.scope.value.fields, Level(e).value) { ScopeIsSection(e, e.scope.value.fields); }
  }

  lemma EnvelopeExactly(rev: EventRevision, m: Matrices, e: Event)
    ensures EnvelopeSection(rev, m, e) <==> WellScoped(rev, m, e)
  {
    if e.scope.Some? && e.scope.value.JObject? {
      ScopeExactly(e);
      if e.itemKind.Some? && e.lifecycle.Some? && Level(e).Some? {
        RulesExactly(rev, m, e.itemKind.value, e.lifecycle.value, Level(e).value);
      }
    }
  }

  /* ---- Payload ---- */

  /** A document under a key of the metadata. */
  predicate HasDocument(e: Event, key: string) {
    e.metadata.Some? && key in e.metadata.value && e.metadata.value[key].JObject?
  }

  function Payload(e: Event): map<string, Json>
    requires HasDocument(e, "v2_payload")
  {
    e.metadata.value["v2_payload"].fields
  }

  /** A phase that is given is the one of its kind; a kind without a phase gives none. */
  predicate PhaseIs(payload: map<string, Json>, phase: string) {
    "phase" in payload ==> payload["phase"].AsText() in {None, Some(phase)}
  }

  predicate InPhase(kind: string, payload: map<string, Json>) {
    match kind
    case "assistant_text" => PhaseIs(payload, "unknown")
    case "assistant_commentary" => PhaseIs(payload, "commentary")
    case "assistant_reasoning_summary" => PhaseIs(payload, "reasoning_summary")
    case "assistant_reasoning_private" => PhaseIs(payload, "reasoning_private")
    case "assistant_final" => PhaseIs(payload, "final")
    case _ => "phase" !in payload
  }

  /** A hook names a boundary whose rule allows it, and a source exactly where the rule has sources. */
  predicate AtBoundary(m: Matrices, e: Event, payload: map<string, Json>) {
    && e.lifecycle.Some? && "boundary" in payload && payload["boundary"].AsText().Some?
    && var boundary := payload["boundary"].AsText().value;
    && boundary in m.hooks
    && e.lifecycle.value in m.hooks[boundary].hookLifecycles
    && (Level(e).Some? ==> Level(e).value in m.hooks[boundary].hookScopes)
    && (if m.hooks[boundary].sources == {} then "source" !in payload
        else if "source" in payload && payload["source"].AsText().Some? then
          payload["source"].AsText().value in m.hooks[boundary].sources
        else "" in m.hooks[boundary].sources)
  }

  predicate WellPayloaded(m: Matrices, e: Event) {
    && HasDocument(e, "v2_payload") && HasDocument(e, "actor") && HasDocument(e, "visibility")
    && e.itemKind.Some?
    && InPhase(e.itemKind.value, Payload(e))
    && (e.itemKind.value == "hook" ==> AtBoundary(m, e, Payload(e)))
  }

  lemma PhaseExactly(kind: string, payload: map<string, Json>)
    ensures PhaseAllowed(kind, payload) <==> InPhase(kind, payload)
  {
  }

  lemma BoundaryExactly(m: Matrices, e: Event, payload: map<string, Json>)
    requires e.lifecycle.Some? && e.scope.Some? && e.scope.value.JObject?
    ensures HookAllowed(m, e, payload) <==> AtBoundary(m, e, payload)
  {
  }

  lemma PayloadExactly(m: Matrices, e: Event)
    requires e.itemKind.Some? && e.lifecycle.Some? && e.scope.Some? && e.scope.value.JObject?
    ensures PayloadSection(m, e) <==> WellPayloaded(m, e)
  {
    if HasDocument(e, "v2_payload") {
      PhaseExactly(e.itemKind.value, Payload(e));
      BoundaryExactly(m, e, Payload(e));
    }
  }

  /* ---- References ---- */

  ghost predicate EventDemandsMet(db: Db, e: Event) {
    forall d :: EventDemands(e, d) ==> Met(db, d)
  }

  /**
   The input belongs to the event's command, or, from the input-control revision on, to the command that
   caused it where that is a saga's; and it was not meant for another run.
   */
  predicate InputLinked(rev: EventRevision, db: Db, e: Event) {
    e.input.Some? ==>
      && Key(TurnInputs, e.input.value) in db.rows && db.rows[Key(TurnInputs, e.input.value)].TurnInput?
      && var input := db.rows[Key(TurnInputs, e.input.value)];
      && (e.command.Some? && e.command.value != input.command ==>
            && rev != Event0716
            && Key(Commands, e.command.value) in db.rows && db.rows[Key(Commands, e.command.value)].Command?
            && db.rows[Key(Commands, e.command.value)].namespace == "turn_replacement"
            && db.rows[Key(Commands, e.command.value)].causation == Some(input.command))
      && (e.run.Some? && input.targetRun.Some? ==> e.run == input.targetRun)
  }

  ghost predicate WellReferenced(rev: EventRevision, db: Db, e: Event) {
    EventReferences(db, e) && EventDemandsMet(db, e) && InputLinked(rev, db, e) && WritesOwn(rev, db, e)
  }

  lemma MetEventDemand(db: Db, e: Event, d: Demand)
    requires EventDemandsMet(db, e) && EventDemands(e, d)
    ensures Met(db, d)
  {
  }

  lemma ResultFits(db: Db, e: Event, result: Uuid)
    requires e.schemaVersion == 2 && e.result == Some(result)
    requires EventReferences(db, e) && EventDemandsMet(db, e)
    ensures InFrame(db, ModelResults, result, e.tenant, e.session)
    ensures var r := db.rows[Key(ModelResults, result)];
            && r.ModelResult? && e.run == Some(r.run)
            && ScopeField(e, "turn_id") == Some(r.turn) && ScopeField(e, "round_id") == Some(r.round)
  {
    MetEventDemand(db, e, Holds(RoundScoped(e)));
    MetEventDemand(db, e, ResultRun(result, e.run.value));
    MetEventDemand(db, e, ResultTurn(result, ScopeField(e, "turn_id").value));
    MetEventDemand(db, e, ResultRound(result, ScopeField(e, "round_id").value));
  }

  lemma InvocationFits(db: Db, e: Event, invocation: Uuid)
    requires e.schemaVersion == 2 && e.invocation == Some(invocation)
    requires EventReferences(db, e) && EventDemandsMet(db, e)
    ensures InFrame(db, ToolInvocations, invocation, e.tenant, e.session)
    ensures var r := db.rows[Key(ToolInvocations, invocation)];
            r.ToolInvocation? && e.run == Some(r.run) && ScopeField(e, "round_id") == Some(r.round)
  {
    MetEventDemand(db, e, Holds(RoundScoped(e)));
    MetEventDemand(db, e, InvocationRun(invocation, e.run.value));
    MetEventDemand(db, e, InvocationRound(invocation, ScopeField(e, "round_id").value));
  }

  lemma InputExactly(rev: EventRevision, db: Db, e: Event)
    requires e.schemaVersion == 2 && e.input.Some?
    requires e.command.Some? ==> InFrame(db, Commands, e.command.value, e.tenant, e.session)
    ensures InputReference(rev, db, e)
            <==> InFrame(db, TurnInputs, e.input.value, e.tenant, e.session) && InputLinked(rev, db, e)
  {
  }

  lemma ReferencedIsAccepted(rev: EventRevision, db: Db, e: Event)
    requires e.schemaVersion == 2 && WellReferenced(rev, db, e)
    ensures ReferenceSection(rev, db, e)
  {
    V2WritersExactly(rev, db, e);
    if e.result.Some? { ResultFits(db, e, e.result.value); }
    if e.invocation.Some? { InvocationFits(db, e, e.invocation.value); }
    if e.input.Some? { InputExactly(rev, db, e); }
  }

  lemma AcceptedIsReferenced(rev: EventRevision, m: Matrices, db: Db, e: Event)
    requires e.schemaVersion == 2 && EventBound(db, e) && CanonicalWriteAccepted(rev, m, db, e)
    ensures WellReferenced(rev, db, e)
  {
    AcceptedEventIsSound(rev, m, db, e);
    forall d | EventDemands(e, d) ensures Met(db, d) { EventMeets(rev, m, db, e, d); }
    V2WritersExactly(rev, db, e);
    if e.input.Some? { InputExactly(rev, db, e); }
  }

  /* ---- The projection side-car ---- */

  /** The eight metadata keys of the bridge. */
  predicate BridgeKey(key: string) {
    key in ["t0_bridge_pending", "t0_bridge_last_error", "t0_bridge_attempts", "t0_bridge_relayed_at",
            "t0_bridge_relay_source", "t0_bridge_segment_id", "t0_bridge_event_id", "t0_bridge_sequence"]
  }

  /** The entry under a key of the metadata, where NULL metadata has none. */
  function Entry(e: Event, key: string): Option<Json> {
    if e.metadata.Some? && key in e.metadata.value then Some(e.metadata.value[key]) else None
  }

  /** All columns but the projection's are the same, and so is all metadata but the bridge's. */
  ghost predicate SameContent(e: Event, f: Event) {
    && e.tenant == f.tenant && e.agent == f.agent && e.session == f.session && e.sequence == f.sequence
    && e.schemaVersion == f.schemaVersion && e.run == f.run && e.item == f.item && e.itemKind == f.itemKind
    && e.lifecycle == f.lifecycle && e.payloadSchema == f.payloadSchema && e.eventType == f.eventType
    && e.scope == f.scope && e.command == f.command && e.input == f.input && e.result == f.result
    && e.invocation == f.invocation && e.providerToolUse == f.providerToolUse && e.rest == f.rest
    && forall key :: !BridgeKey(key) ==> Entry(e, key) == Entry(f, key)
  }

  lemma BridgeKeysExactly(key: string)
    ensures BridgeKey(key) <==> key in BRIDGE_KEYS
  {
  }

  lemma CanonicalExactly(e: Event, f: Event)
    ensures Canonical(e) == Canonical(f) <==> SameContent(e, f)
  {
    forall key ensures BridgeKey(key) <==> key in BRIDGE_KEYS { BridgeKeysExactly(key); }
    if SameContent(e, f) {
      forall key ensures key in CanonicalMetadata(e) <==> key in CanonicalMetadata(f)
                 ensures key in CanonicalMetadata(e) ==> CanonicalMetadata(e)[key] == CanonicalMetadata(f)[key]
      {
        assert !BridgeKey(key) ==> Entry(e, key) == Entry(f, key);
      }
      assert CanonicalMetadata(e) == CanonicalMetadata(f);
    }
    if Canonical(e) == Canonical(f) { SameCanonical(e, f); }
  }

  lemma SameCanonical(e: Event, f: Event)
    requires Canonical(e) == Canonical(f)
    ensures SameContent(e, f)
  {
    var c, d := Canonical(e), Canonical(f);
    assert c.tenant == e.tenant && c.agent == e.agent && c.session == e.session && c.sequence == e.sequence;
    assert c.metadata == d.metadata && CanonicalMetadata(e) == CanonicalMetadata(f);
    forall key | !BridgeKey(key) ensures Entry(e, key) == Entry(f, key) {
      BridgeKeysExactly(key);
      assert key in CanonicalMetadata(e) <==> key in CanonicalMetadata(f);
      assert key in CanonicalMetadata(e) <==> Entry(e, key).Some?;
      assert key in CanonicalMetadata(f) <==> Entry(f, key).Some?;
      if key in CanonicalMetadata(e) { assert CanonicalMetadata(e)[key] == CanonicalMetadata(f)[key]; }
    }
  }

  /** An update from the projection-epoch revision on that only moves the projection forward. */
  ghost predicate MovesProjection(rev: EventRevision, prior: Option<Event>, e: Event) {
    && rev !in {Event0716, EventInputControl0716, EventAdmissionRevision0716}
    && prior.Some? && SameContent(e, prior.value)
    && e.projectionStatus in {"pending", "projecting", "projected", "failed", "not_requested"}
    && prior.value.projectionAttempts <= e.projectionAttempts
    && !(prior.value.projectionStatus == "projected" && e.projectionStatus != "projected")
  }

  lemma ProjectionExactly(rev: EventRevision, prior: Option<Event>, e: Event)
    ensures ProjectionOnly(rev, prior, e) <==> MovesProjection(rev, prior, e)
  {
    if prior.Some? { CanonicalExactly(e, prior.value); }
  }

  /* ---- Acceptance ---- */

  /** The event is right in itself and in what it refers to; a legacy event has only its writer. */
  ghost predicate Writable(rev: EventRevision, m: Matrices, db: Db, e: Event) {
    && WriterAllowed(db, e)
    && (if e.schemaVersion == 2 then WellScoped(rev, m, e) && WellReferenced(rev, db, e) && WellPayloaded(m, e)
        else WritesOwn(rev, db, e))
  }

  lemma V2Exactly(rev: EventRevision, m: Matrices, db: Db, e: Event)
    requires e.schemaVersion == 2 && EventBound(db, e)
    ensures CanonicalWriteAccepted(rev, m, db, e) <==> Writable(rev, m, db, e)
  {
    V2WritersExactly(rev, db, e);
    EnvelopeExactly(rev, m, e);
    if EnvelopeSection(rev, m, e) { PayloadExactly(m, e); }
    if CanonicalWriteAccepted(rev, m, db, e) { AcceptedIsReferenced(rev, m, db, e); }
    if WellReferenced(rev, db, e) { ReferencedIsAccepted(rev, db, e); }
  }

  /**
   An event is accepted if and only if it has its session's tenant and agent, and either only moves its
   projection, or its writer is allowed and it is well scoped, referenced and payloaded (schema 2) or
   written by its own run (legacy).
   */
  lemma EventAcceptedExactly(rev: EventRevision, m: Matrices, db: Db, prior: Option<Event>, e: Event)
    ensures EventAccepts(rev, m, db, prior, e)
            <==> && e.session in db.sessions
                 && db.sessions[e.session].tenant == e.tenant && db.sessions[e.session].agent == e.agent
                 && (MovesProjection(rev, prior, e) || Writable(rev, m, db, e))
  {
    ProjectionExactly(rev, prior, e);
    if EventBound(db, e) {
      if e.schemaVersion == 2 { V2Exactly(rev, m, db, e); } else { WritersExactly(rev, db, e); }
    }
  }

  /**
   A run is accepted unless an enforcing epoch refuses it: a new one must be of the generation for new
   runs, a changed one keeps its own, and either generation must be allowed.
   */
  lemma RunAcceptedExactly(db: Db, prior: Option<RuntimeTask>, run: RuntimeTask)
    ensures WriterAccepts(db, prior, run)
            <==> (db.epoch.Some? && db.epoch.value.enforce ==>
                    && run.writerGeneration in db.epoch.value.allowed
                    && run.writerGeneration
                       == if prior.Some? then prior.value.writerGeneration else db.epoch.value.newRunGeneration)
  {
  }
}
