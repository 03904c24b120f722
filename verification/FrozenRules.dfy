/**
 The two rule tables the first revision of the event trigger holds as constants, and what is true of
 them: later revisions accept more events, and the rules of the hooks fit the rule of hook events.
 */
module FrozenRules {
  import opened Wrappers
  import opened SessionTables
  import opened EventTrigger
  import opened AuthorityWidening

  const FILE_LIFECYCLES: set<string> := {"cancelled", "completed", "denied", "failed", "progress", "started",
    "unavailable"}
  const TOOL_LIFECYCLES: set<string> := {"cancelled", "completed", "denied", "failed", "needs_reconciliation",
    "progress", "queued", "reconciled", "started", "unavailable", "waiting"}
  const ASSISTANT_LIFECYCLES: set<string> := {"cancelled", "completed", "delta", "failed", "snapshot", "started"}
  const AGENT_LIFECYCLES: set<string> := {"cancelled", "completed", "denied", "failed", "progress", "queued",
    "snapshot", "started", "unavailable", "waiting"}
  const WORKFLOW_LIFECYCLES: set<string> := {"cancelled", "completed", "denied", "failed", "needs_reconciliation",
    "progress", "queued", "reconciled", "started", "waiting"}
  const QUESTION_LIFECYCLES: set<string> := {"cancelled", "completed", "created", "denied", "expired", "waiting"}
  const HOOK_LIFECYCLES: set<string> := {"blocked", "cancelled", "completed", "denied", "failed", "prevented",
    "started", "waiting"}

  /** Kinds with session scope, some with others besides. */
  const SESSION_KINDS: map<string, Rule> := map[
    "evaluation_feedback_mutation" := Rule({"recorded", "updated", "withdrawn"}, {"session"}),
    "hook" := Rule(HOOK_LIFECYCLES, {"round", "run", "session"}),
    "human_input" := Rule({"accepted", "applied", "bound", "cancelled", "needs_reconciliation", "queued",
      "reconciled", "rejected", "revised", "rolled_over"}, {"session"}),
    "input_admission" := Rule({"admitted", "cancelled", "needs_reconciliation", "prepared", "reconciled", "rejected",
      "sealed", "started"}, {"session"}),
    "recovery_action" := Rule({"completed", "failed", "reconciled", "requested", "started"}, {"run", "session", "turn"}),
    "runtime_failure" := Rule({"recorded"}, {"round", "run", "session", "turn"}),
    "session" := Rule({"created", "forked", "resumed"}, {"session"}),
    "turn_replacement" := Rule({"admitted", "cancelling", "completed", "failed", "fenced", "needs_reconciliation",
      "queued", "reconciled", "requested"}, {"session"})
  ]

  /** Kinds with run or turn scope but not session scope. */
  const RUN_KINDS: map<string, Rule> := map[
    "a2a_delegation" := Rule(AGENT_LIFECYCLES, {"round", "run"}),
    "a2a_receipt" := Rule(AGENT_LIFECYCLES, {"round", "run"}),
    "approval" := Rule(QUESTION_LIFECYCLES, {"round", "run"}),
    "artifact" := Rule({"created", "delivered", "failed", "updated"}, {"round", "run"}),
    "context_compaction" := Rule({"completed", "failed", "needs_reconciliation", "progress", "reconciled", "started"}, {"round", "run"}),
    "control_input" := Rule({"accepted", "applied", "failed", "needs_reconciliation", "reconciled", "rejected",
      "started"}, {"run"}),
    "run" := Rule({"cancelled", "cancelling", "completed", "failed", "needs_reconciliation", "queued", "reconciled",
      "running", "starting", "waiting"}, {"run"}),
    "run_outcome" := Rule({"failed", "needs_reconciliation", "prepared", "reconciled", "sealed", "terminal_committed"}, {"run"}),
    "subagent" := Rule(AGENT_LIFECYCLES, {"round", "run"}),
    "turn" := Rule({"accepted", "cancelled", "completed", "failed", "needs_reconciliation", "queued", "reconciled",
      "started", "waiting"}, {"turn"}),
    "user_question" := Rule(QUESTION_LIFECYCLES, {"round", "run"}),
    "workflow_gate" := Rule(WORKFLOW_LIFECYCLES, {"round", "run"}),
    "workflow_run" := Rule(WORKFLOW_LIFECYCLES, {"round", "run"}),
    "workflow_step" := Rule(WORKFLOW_LIFECYCLES, {"round", "run"})
  ]

  /** What the model and its results contribute to a round. */
  const MODEL_KINDS: map<string, Rule> := map[
    "assistant_commentary" := Rule(ASSISTANT_LIFECYCLES, {"round"}),
    "assistant_final" := Rule(ASSISTANT_LIFECYCLES, {"round"}),
    "assistant_plan" := Rule(ASSISTANT_LIFECYCLES, {"round"}),
    "assistant_reasoning_private" := Rule(ASSISTANT_LIFECYCLES, {"round"}),
    "assistant_reasoning_summary" := Rule(ASSISTANT_LIFECYCLES, {"round"}),
    "assistant_text" := Rule(ASSISTANT_LIFECYCLES, {"round"}),
    "context_source" := Rule({"completed", "denied", "failed", "started", "unavailable"}, {"round"}),
    "result_commit" := Rule({"failed", "needs_reconciliation", "prepared", "reconciled", "round_committed", "sealed",
      "streaming"}, {"round"}),
    "tool_result" := Rule({"completed"}, {"round"})
  ]

  /** Files, memories and skills in a round. */
  const FILE_KINDS: map<string, Rule> := map[
    "file_change" := Rule(FILE_LIFECYCLES, {"round"}),
    "file_preview" := Rule(FILE_LIFECYCLES, {"round"}),
    "file_read" := Rule(FILE_LIFECYCLES, {"round"}),
    "memory_commit" := Rule(FILE_LIFECYCLES, {"round"}),
    "memory_load" := Rule(FILE_LIFECYCLES, {"round"}),
    "memory_search" := Rule(FILE_LIFECYCLES, {"round"}),
    "memory_write_proposal" := Rule(FILE_LIFECYCLES, {"round"}),
    "skill_load" := Rule(FILE_LIFECYCLES, {"round"}),
    "skill_search" := Rule(FILE_LIFECYCLES, {"round"})
  ]

  /** Tools in a round. */
  const TOOL_KINDS: map<string, Rule> := map[
    "code_execution" := Rule(TOOL_LIFECYCLES, {"round"}),
    "image_view" := Rule(TOOL_LIFECYCLES, {"round"}),
    "mcp_call" := Rule(TOOL_LIFECYCLES, {"round"}),
    "tool_call" := Rule(TOOL_LIFECYCLES, {"round"}),
    "tool_permission" := Rule(TOOL_LIFECYCLES, {"round"}),
    "tool_search" := Rule(TOOL_LIFECYCLES, {"round"}),
    "web_search" := Rule(TOOL_LIFECYCLES, {"round"})
  ]

  const EVENT_MATRIX: map<string, Rule> := SESSION_KINDS + RUN_KINDS + MODEL_KINDS + FILE_KINDS + TOOL_KINDS

  /** The boundaries of hooks with their lifecycles, scopes and sources. */
  const HOOK_MATRIX: map<string, HookRule> := map[
    "PostCompact" := HookRule({"cancelled", "completed", "failed", "started"},
      {"run"}, {"auto", "manual", "reactive"}),
    "PreCompact" := HookRule({"cancelled", "completed", "failed", "started"}, {"run"}, {"auto", "manual", "reactive"}),
    "PreToolUse" := HookRule({"blocked", "cancelled", "completed", "denied", "failed", "prevented", "started", "waiting"},
      {"round"}, {}),
    "SessionStart" := HookRule({"completed", "failed", "started"},
      {"session"}, {"clear", "compact", "resume", "startup"}),
    "Stop" := HookRule({"blocked", "cancelled", "completed", "failed", "prevented", "started"}, {"run"}, {}),
    "SubagentStop" := HookRule({"blocked", "cancelled", "completed", "failed", "prevented", "started"}, {"run"}, {}),
    "UserPromptSubmit" := HookRule({"blocked", "cancelled", "completed", "failed", "prevented", "started"},
      {"session"}, {})
  ]

  const FROZEN: Matrices := Matrices(EVENT_MATRIX, HOOK_MATRIX)

  /** The kind does not begin with "ca". */
  predicate Elsewhere(kind: string) {
    |kind| >= 2 && (kind[0] != 'c' || kind[1] != 'a')
  }

  lemma SessionKindsElsewhere()
    ensures forall kind :: kind in SESSION_KINDS ==> Elsewhere(kind)
  {
  }

  lemma RunKindsElsewhere()
    ensures forall kind :: kind in RUN_KINDS ==> Elsewhere(kind)
  {
  }

  lemma ModelKindsElsewhere()
    ensures forall kind :: kind in MODEL_KINDS ==> Elsewhere(kind)
  {
  }

  lemma FileKindsElsewhere()
    ensures forall kind :: kind in FILE_KINDS ==> Elsewhere(kind)
  {
  }

  lemma ToolKindsElsewhere()
    ensures forall kind :: kind in TOOL_KINDS ==> Elsewhere(kind)
  {
  }

  lemma ControlInputRule()
    ensures "control_input" in RUN_KINDS && RUN_KINDS["control_input"].scopes == {"run"}
    ensures "control_input" !in MODEL_KINDS && "control_input" !in FILE_KINDS && "control_input" !in TOOL_KINDS
  {
  }

  /** The admission revision widens these tables. */
  lemma FrozenRulesPrecedeRevision()
    ensures RulesBeforeRevision(FROZEN)
  {
    SessionKindsElsewhere();
    RunKindsElsewhere();
    ModelKindsElsewhere();
    FileKindsElsewhere();
    ToolKindsElsewhere();
    assert !Elsewhere("carry_forward");
    ControlInputRule();
  }

  /** So with the frozen tables every event accepted at a revision is accepted at every later one. */
  lemma FrozenEventsStayAccepted(a: EventRevision, b: EventRevision, db: Db, prior: Option<Event>, e: Event)
    requires a.Rank() <= b.Rank() && EventAccepts(a, FROZEN, db, prior, e)
    ensures EventAccepts(b, FROZEN, db, prior, e)
  {
    FrozenRulesPrecedeRevision();
    LaterEventAcceptsMore(a, b, FROZEN, db, prior, e);
  }

  lemma HookIsOneKind()
    ensures "hook" in SESSION_KINDS && SESSION_KINDS["hook"] == Rule(HOOK_LIFECYCLES, {"round", "run", "session"})
    ensures "hook" !in RUN_KINDS && "hook" !in MODEL_KINDS && "hook" !in FILE_KINDS && "hook" !in TOOL_KINDS
  {
  }

  lemma HookEventRule()
    ensures "hook" in EVENT_MATRIX && EVENT_MATRIX["hook"] == Rule(HOOK_LIFECYCLES, {"round", "run", "session"})
  {
    HookIsOneKind();
  }

  lemma BoundaryRule(boundary: string)
    requires boundary in HOOK_MATRIX
    ensures HOOK_MATRIX[boundary].hookLifecycles <= HOOK_LIFECYCLES
    ensures HOOK_MATRIX[boundary].hookScopes <= {"round", "run", "session"}
  {
  }

  /** Whatever a boundary allows, the rule of hook events allows too: the second check only narrows the first. */
  lemma HookRulesFit(boundary: string)
    requires boundary in HOOK_MATRIX
    ensures "hook" in EVENT_MATRIX
    ensures HOOK_MATRIX[boundary].hookLifecycles <= EVENT_MATRIX["hook"].lifecycles
    ensures HOOK_MATRIX[boundary].hookScopes <= EVENT_MATRIX["hook"].scopes
  {
    HookEventRule();
    BoundaryRule(boundary);
  }
}
