/**
 The triggers on transcript events (`enforce_session_event_v2_contract`, six frozen revisions) and
 on runtime tasks (`enforce_session_writer_epoch`). The two constant rule tables of the event
 trigger are a parameter; the admission revision's edits to them are functions of it.
 */
module EventTrigger {
  import opened Wrappers
  import opened SessionTables
  import opened BindingTrigger

  datatype EventRevision =
    | Event0716 | EventInputControl0716 | EventAdmissionRevision0716 | EventProjectionEpoch0716
    | EventRootLedger0716 | EventPeerA2a0717
  {
    function Rank(): nat {
      match this
      case Event0716 => 0
      case EventInputControl0716 => 1
      case EventAdmissionRevision0716 => 2
      case EventProjectionEpoch0716 => 3
      case EventRootLedger0716 => 4
      case EventPeerA2a0717 => 5
    }
  }

  datatype Rule = Rule(lifecycles: set<string>, scopes: set<string>)
  datatype HookRule = HookRule(hookLifecycles: set<string>, hookScopes: set<string>, sources: set<string>)
  datatype Matrices = Matrices(events: map<string, Rule>, hooks: map<string, HookRule>)

  /** The event rules in force: the admission revision widens control inputs and adds carry-forwards. */
  function RulesAt(rev: EventRevision, m: Matrices): map<string, Rule> {
    if rev.Rank() < 2 then m.events
    else
      m.events[
        "control_input" := Rule({"accepted", "applied", "failed", "needs_reconciliation", "reconciled",
                                 "rejected", "started"}, {"run", "session"})][
        "carry_forward" := Rule({"bound", "claimed", "consumed", "needs_reconciliation", "reconciled"}, {"round"})]
  }

  /* ---- Writer epoch ---- */

  predicate Enforcing(db: Db) {
    db.epoch.Some? && db.epoch.value.enforce
  }

  /** The trigger on runtime tasks; `prior` is None for INSERT. */
  predicate WriterAccepts(db: Db, prior: Option<RuntimeTask>, r: RuntimeTask) {
    !Enforcing(db)
    || (var epoch := db.epoch.value;
        if prior.None? then r.writerGeneration == epoch.newRunGeneration && r.writerGeneration in epoch.allowed
        else r.writerGeneration == prior.value.writerGeneration && prior.value.writerGeneration in epoch.allowed)
  }

  /* ---- Event trigger ---- */

  /** The event has the tenant and the agent of its session. */
  predicate EventBound(db: Db, e: Event) {
    e.session in db.sessions && e.tenant == db.sessions[e.session].tenant && e.agent == db.sessions[e.session].agent
  }

  const BRIDGE_KEYS: set<string> := {
    "t0_bridge_pending", "t0_bridge_last_error", "t0_bridge_attempts", "t0_bridge_relayed_at",
    "t0_bridge_relay_source", "t0_bridge_segment_id", "t0_bridge_event_id", "t0_bridge_sequence"
  }

  /** `COALESCE(metadata,'{}') - bridge keys`. */
  function CanonicalMetadata(e: Event): map<string, Json> {
    if e.metadata.None? then map[] else e.metadata.value - BRIDGE_KEYS
  }

  /** Everything of an event but the projection side-car: its canonical content. */
  function Canonical(e: Event): Event {
    e.(metadata := Some(CanonicalMetadata(e)), projectionStatus := "", projectionAttempts := 0,
       projectionError := None, projectedAt := None)
  }

  /** The early-accept guard of the projection-epoch revision. */
  predicate ProjectionOnly(rev: EventRevision, prior: Option<Event>, e: Event) {
    && rev.Rank() >= 3
    && prior.Some?
    && Canonical(e) == Canonical(prior.value)
    && e.projectionStatus in {"pending", "projecting", "projected", "failed", "not_requested"}
    && e.projectionAttempts >= prior.value.projectionAttempts
    && (prior.value.projectionStatus == "projected" ==> e.projectionStatus == "projected")
  }

  /** The epoch section: what an enforcing epoch demands of the event and its run. */
  predicate EpochSection(db: Db, e: Event) {
    !Enforcing(db)
    || (var epoch := db.epoch.value;
        if e.schemaVersion != 2 then
          epoch.state == "v1_draining" && e.run.Some? && e.run.value in db.runs
          && db.runs[e.run.value].writerGeneration == 1 && 1 in epoch.allowed
        else
          e.run.Some? ==>
            e.run.value in db.runs && db.runs[e.run.value].writerGeneration == 2 && 2 in epoch.allowed)
  }

  predicate ParentSpelling(run: RuntimeTask, e: Event, normalized: bool) {
    && run.parentAgent == Some(e.agent)
    && (if normalized then Denotes(run.parentSession, e.session) else run.parentSession == Some(Text(e.session)))
  }

  predicate ChildSpelling(run: RuntimeTask, e: Event, normalized: bool) {
    && (if run.childAgent.Some? then run.childAgent else run.parentAgent) == Some(e.agent)
    && (if normalized then Denotes(run.childSession, e.session) else run.childSession == Some(Text(e.session)))
  }

  predicate LegacyRunBound(rev: EventRevision, run: RuntimeTask, e: Event) {
    ParentSpelling(run, e, rev.Rank() >= 5) || (rev.Rank() >= 4 && ChildSpelling(run, e, rev.Rank() >= 5))
  }

  /** A run-bound legacy event needs an allowed run of its own frame, whether or not the epoch enforces. */
  predicate LegacySection(rev: EventRevision, db: Db, e: Event) {
    (e.schemaVersion != 2 && e.run.Some?) ==>
      && db.epoch.Some?
      && e.run.value in db.runs
      && db.runs[e.run.value].tenant == e.tenant
      && LegacyRunBound(rev, db.runs[e.run.value], e)
      && db.runs[e.run.value].writerGeneration in db.epoch.value.allowed
  }

  function AllowedScopeKeys(level: Option<string>): set<string> {
    match level
    case Some("session") => {"level", "session_id", "thread_id"}
    case Some("turn") => {"level", "session_id", "thread_id", "turn_id"}
    case Some("run") => {"level", "session_id", "thread_id", "turn_id", "run_id"}
    case Some("round") => {"level", "session_id", "thread_id", "turn_id", "run_id", "round_id"}
    case _ => {}
  }

  /** The scope document of a V2 event. */
  predicate ScopeSection(e: Event)
    requires e.scope.Some? && e.scope.value.JObject?
  {
    && var scope := e.scope.value.fields;
    && var level := TextField(scope, "level");
    && scope.Keys <= AllowedScopeKeys(level)
    && !Blank(TextField(scope, "session_id")) && !Blank(TextField(scope, "thread_id"))
    && TextField(scope, "session_id") == TextField(scope, "thread_id")
    && Denotes(TextField(scope, "session_id"), e.session)
    && (level in {Some("turn"), Some("run"), Some("round")} ==> !Blank(TextField(scope, "turn_id")))
    && (level in {Some("run"), Some("round")} ==> !Blank(TextField(scope, "run_id")))
    && (level == Some("round") ==> !Blank(TextField(scope, "round_id")))
    && (level in {Some("session"), Some("turn")} ==> e.run.None?)
    && (level in {Some("run"), Some("round")} ==>
          e.run.Some? && TextField(scope, "run_id") == Some(Text(e.run.value)))
  }

  /** Envelope, rule-table tuple and scope document of a V2 event. */
  predicate EnvelopeSection(rev: EventRevision, m: Matrices, e: Event) {
    && e.item.Some? && e.itemKind.Some? && e.lifecycle.Some? && e.payloadSchema.Some?
    && e.scope.Some? && e.scope.value.JObject?
    && var kind, lifecycle := e.itemKind.value, e.lifecycle.value;
    && e.eventType == kind + "." + lifecycle
    && e.payloadSchema.value == "hive.session.payload." + kind + "." + lifecycle + ".v2"
    && var scope := e.scope.value.fields;
    && var level := TextField(scope, "level");
    && kind in RulesAt(rev, m)
    && lifecycle in RulesAt(rev, m)[kind].lifecycles
    && (level.Some? ==> level.value in RulesAt(rev, m)[kind].scopes)
    && ScopeSection(e)
  }

  predicate V2RunBound(rev: EventRevision, run: RuntimeTask, e: Event) {
    ParentSpelling(run, e, rev.Rank() >= 5) || (rev.Rank() >= 5 && ChildSpelling(run, e, true))
  }

  predicate InputReference(rev: EventRevision, db: Db, e: Event)
    requires e.input.Some?
  {
    && InFrame(db, TurnInputs, e.input.value, e.tenant, e.session)
    && var input := db.rows[Key(TurnInputs, e.input.value)];
    && input.TurnInput?
    && (e.command.None? || input.command == e.command.value
        || (rev.Rank() >= 1
            && InFrame(db, Commands, e.command.value, input.tenant, input.session)
            && var linked := db.rows[Key(Commands, e.command.value)];
            && linked.Command? && linked.namespace == "turn_replacement" && linked.causation == Some(input.command)))
    && (input.targetRun.None? || e.run.None? || input.targetRun == e.run)
  }

  /** The references of a V2 event to what a round produced. */
  predicate ResultReference(db: Db, e: Event) {
    && (e.result.Some? ==>
          InFrame(db, ModelResults, e.result.value, e.tenant, e.session)
          && var result := db.rows[Key(ModelResults, e.result.value)];
          result.ModelResult? && e.run == Some(result.run)
          && ScopeField(e, "turn_id") == Some(result.turn) && ScopeField(e, "round_id") == Some(result.round))
    && (e.invocation.Some? ==>
          InFrame(db, ToolInvocations, e.invocation.value, e.tenant, e.session)
          && var invocation := db.rows[Key(ToolInvocations, e.invocation.value)];
          invocation.ToolInvocation? && e.run == Some(invocation.run)
          && ScopeField(e, "round_id") == Some(invocation.round))
  }

  /** The references of a V2 event. */
  predicate ReferenceSection(rev: EventRevision, db: Db, e: Event) {
    && (e.run.Some? ==>
          e.run.value in db.runs && db.runs[e.run.value].tenant == e.tenant
          && V2RunBound(rev, db.runs[e.run.value], e))
    && (e.command.Some? ==> InFrame(db, Commands, e.command.value, e.tenant, e.session))
    && (e.input.Some? ==> InputReference(rev, db, e))
    && ResultReference(db, e)
  }

  const ASSISTANT_PHASES: map<string, string> := map[
    "assistant_text" := "unknown", "assistant_commentary" := "commentary",
    "assistant_reasoning_summary" := "reasoning_summary", "assistant_reasoning_private" := "reasoning_private",
    "assistant_final" := "final"]

  function MetadataField(e: Event, key: string): Json {
    if e.metadata.Some? && key in e.metadata.value then e.metadata.value[key] else JNull
  }

  predicate PhaseAllowed(kind: string, payload: map<string, Json>) {
    if kind in ASSISTANT_PHASES then
      var phase := TextField(payload, "phase");
      phase.None? || phase.value == ASSISTANT_PHASES[kind]
    else "phase" !in payload
  }

  /** The hook's boundary has a rule, which allows its lifecycle, level and source. */
  predicate HookAllowed(m: Matrices, e: Event, payload: map<string, Json>)
    requires e.lifecycle.Some? && e.scope.Some? && e.scope.value.JObject?
  {
    var boundary := TextField(payload, "boundary");
    var source := TextField(payload, "source");
    var level := TextField(e.scope.value.fields, "level");
    && boundary.Some? && boundary.value in m.hooks
    && var hook := m.hooks[boundary.value];
    && e.lifecycle.value in hook.hookLifecycles
    && (level.Some? ==> level.value in hook.hookScopes)
    && (hook.sources != {} ==> (if source.Some? then source.value else "") in hook.sources)
    && (hook.sources == {} ==> "source" !in payload)
  }

  /** Payload, phase and hook rules of a V2 event. */
  predicate PayloadSection(m: Matrices, e: Event)
    requires e.itemKind.Some? && e.lifecycle.Some? && e.scope.Some? && e.scope.value.JObject?
  {
    && MetadataField(e, "v2_payload").JObject?
    && MetadataField(e, "actor").JObject?
    && MetadataField(e, "visibility").JObject?
    && var payload := MetadataField(e, "v2_payload").fields;
    && PhaseAllowed(e.itemKind.value, payload)
    && (e.itemKind.value == "hook" ==> HookAllowed(m, e, payload))
  }

  predicate V2Section(rev: EventRevision, m: Matrices, db: Db, e: Event) {
    e.schemaVersion == 2 ==> EnvelopeSection(rev, m, e) && ReferenceSection(rev, db, e) && PayloadSection(m, e)
  }

  /** The sections after the projection guard. */
  predicate CanonicalWriteAccepted(rev: EventRevision, m: Matrices, db: Db, e: Event) {
    EpochSection(db, e) && LegacySection(rev, db, e) && V2Section(rev, m, db, e)
  }

  /** The whole event trigger; `prior` is None for INSERT. */
  predicate EventAccepts(rev: EventRevision, m: Matrices, db: Db, prior: Option<Event>, e: Event) {
    EventBound(db, e) && (ProjectionOnly(rev, prior, e) || CanonicalWriteAccepted(rev, m, db, e))
  }

  /* ---- What the sections mean together ---- */

  function Level(e: Event): Option<string> {
    ScopeField(e, "level")
  }

  lemma FieldIsThere(doc: map<string, Json>, key: string)
    requires TextField(doc, key).Some?
    ensures key in doc
  {
  }

  /**
   Although a missing level passes the comparisons with the rule table, an accepted V2 event always
   has one of the four levels, and its scope document has exactly the keys of that level: the
   session, the turn from level turn on, and precisely the event's run from level run on.
   */
  lemma ScopeIsExact(rev: EventRevision, m: Matrices, e: Event)
    requires EnvelopeSection(rev, m, e)
    ensures Level(e) in {Some("session"), Some("turn"), Some("run"), Some("round")}
    ensures e.scope.value.fields.Keys == AllowedScopeKeys(Level(e))
    ensures e.run.Some? <==> Level(e) in {Some("run"), Some("round")}
    ensures e.run.Some? ==> ScopeField(e, "run_id") == Some(Text(e.run.value))
    ensures Denotes(ScopeField(e, "session_id"), e.session)
  {
    var scope := e.scope.value.fields;
    FieldIsThere(scope, "session_id");
    FieldIsThere(scope, "thread_id");
    assert "session_id" in AllowedScopeKeys(Level(e));
    FieldIsThere(scope, "level");
    if Level(e) != Some("session") { FieldIsThere(scope, "turn_id"); }
    if e.run.Some? { FieldIsThere(scope, "run_id"); }
    if Level(e) == Some("round") { FieldIsThere(scope, "round_id"); }
  }

  /**
   An accepted V2 event that names a model result or a tool invocation has round scope, and its
   scope names the run, the turn and the round of what it refers to.
   */
  lemma ResultsHaveRoundScope(rev: EventRevision, m: Matrices, db: Db, e: Event)
    requires EnvelopeSection(rev, m, e) && ReferenceSection(rev, db, e)
    requires e.result.Some? || e.invocation.Some?
    ensures Level(e) == Some("round") && e.run.Some?
    ensures e.result.Some? ==>
              var result := db.rows[Key(ModelResults, e.result.value)];
              && result.ModelResult? && ScopeField(e, "run_id") == Some(Text(result.run))
              && ScopeField(e, "turn_id") == Some(result.turn) && ScopeField(e, "round_id") == Some(result.round)
    ensures e.invocation.Some? ==>
              var invocation := db.rows[Key(ToolInvocations, e.invocation.value)];
              && invocation.ToolInvocation? && ScopeField(e, "run_id") == Some(Text(invocation.run))
              && ScopeField(e, "round_id") == Some(invocation.round)
  {
    ScopeIsExact(rev, m, e);
    FieldIsThere(e.scope.value.fields, "round_id");
    assert "round_id" in AllowedScopeKeys(Level(e));
  }
}
