/**
 The relational state guarded by the Session V2 triggers: chat sessions, runtime tasks,
 transcript events, the writer epoch and the fourteen authority tables. Only the columns
 that some trigger reads are kept; the remaining columns of a row are one opaque value.
 */
module SessionTables {
  import opened Wrappers

  /* ---- UUIDs and their text forms ---- */

  predicate LowerHex(c: char) {
    '0' <= c <= '9' || 'a' <= c <= 'f'
  }

  /** A UUID is its thirty-two lower-case hexadecimal digits. */
  type Uuid = s: string | |s| == 32 && forall i :: 0 <= i < |s| ==> LowerHex(s[i])
    witness seq(32, _ => '0')

  /** PostgreSQL's `uuid::text`: groups of 8, 4, 4, 4 and 12 digits. */
  function Text(u: Uuid): string {
    u[..8] + "-" + u[8..12] + "-" + u[12..16] + "-" + u[16..20] + "-" + u[20..]
  }

  function Lower(c: char): char {
    if 'A' <= c <= 'Z' then (c as int + 32) as char else c
  }

  /** `replace(lower(s),'-','')`. */
  function Normalize(s: string): string {
    if s == "" then ""
    else if s[0] == '-' then Normalize(s[1..])
    else [Lower(s[0])] + Normalize(s[1..])
  }

  lemma NormalizeConcat(a: string, b: string)
    ensures Normalize(a + b) == Normalize(a) + Normalize(b)
  {
    if a == "" {
      assert a + b == b;
    } else {
      assert (a + b)[1..] == a[1..] + b;
      NormalizeConcat(a[1..], b);
    }
  }

  lemma NormalizeHex(s: string)
    requires forall i :: 0 <= i < |s| ==> LowerHex(s[i])
    ensures Normalize(s) == s
  {
    if s != "" {
      NormalizeHex(s[1..]);
    }
  }

  lemma NormalizeGroup(hex: string, rest: string)
    requires forall i :: 0 <= i < |hex| ==> LowerHex(hex[i])
    ensures Normalize(hex + "-" + rest) == hex + Normalize(rest)
  {
    NormalizeConcat(hex, "-" + rest);
    NormalizeHex(hex);
    assert hex + "-" + rest == hex + ("-" + rest);
    assert ("-" + rest)[0] == '-' && ("-" + rest)[1..] == rest;
  }

  predicate Hex(s: string) {
    forall i :: 0 <= i < |s| ==> LowerHex(s[i])
  }

  function Dashed(a: string, b: string, c: string, d: string, e: string): string {
    a + "-" + (b + "-" + (c + "-" + (d + "-" + e)))
  }

  lemma NormalizeDashed(a: string, b: string, c: string, d: string, e: string)
    requires Hex(a) && Hex(b) && Hex(c) && Hex(d) && Hex(e)
    ensures Normalize(Dashed(a, b, c, d, e)) == a + (b + (c + (d + e)))
  {
    NormalizeHex(e);
    NormalizeGroup(d, e);
    NormalizeGroup(c, d + "-" + e);
    NormalizeGroup(b, c + "-" + (d + "-" + e));
    NormalizeGroup(a, b + "-" + (c + "-" + (d + "-" + e)));
  }

  lemma TextIsDashed(u: Uuid)
    ensures Text(u) == Dashed(u[..8], u[8..12], u[12..16], u[16..20], u[20..])
  {
    var a, b, c, d, e := u[..8], u[8..12], u[12..16], u[16..20], u[20..];
    Regroup(a + "-", b + "-", c + "-", d + "-", e);
    Regroup(a, "-", b, "-", c);
  }

  lemma Regroup(a: string, b: string, c: string, d: string, e: string)
    ensures a + b + c + d + e == a + (b + (c + (d + e)))
  {
  }

  lemma SlicesJoin(u: Uuid)
    ensures u[..8] + (u[8..12] + (u[12..16] + (u[16..20] + u[20..]))) == u
  {
    assert u[16..20] + u[20..] == u[16..];
    assert u[12..16] + u[16..] == u[12..];
    assert u[8..12] + u[12..] == u[8..];
  }

  /** The normalised text of a UUID names exactly that UUID. */
  lemma NormalizedTextIsExact(u: Uuid)
    ensures Normalize(Text(u)) == u
  {
    TextIsDashed(u);
    NormalizeDashed(u[..8], u[8..12], u[12..16], u[16..20], u[20..]);
    SlicesJoin(u);
  }

  /** SQL `a = b` where either side may be NULL: true only for two equal values. */
  predicate SqlEq<T(==)>(a: Option<T>, b: Option<T>) {
    a.Some? && b.Some? && a == b
  }

  /* ---- JSON documents, as far as the triggers look into them ---- */

  datatype Json =
    | JNull
    | JText(text: string)
    | JObject(fields: map<string, Json>)
    | JOther(repr: string)
  {
    /** The `->>` operator applied to a key that holds this value. */
    function AsText(): Option<string> {
      match this
      case JNull => None
      case JText(s) => Some(s)
      case JObject(_) => Some("{")
      case JOther(r) => Some(r)
    }
  }

  /** `doc->>key`. */
  function TextField(doc: map<string, Json>, key: string): Option<string> {
    if key in doc then doc[key].AsText() else None
  }

  /** `NULLIF(text,'') IS NULL`. */
  predicate Blank(t: Option<string>) {
    t.None? || t.value == ""
  }

  /* ---- Rows ---- */

  datatype ChatSession = ChatSession(
    tenant: Uuid, agent: Uuid, user: Option<Uuid>, kind: string, sourceChannel: string,
    runtimeTask: Option<Uuid>, peerAgent: Option<Uuid>, parentSession: Option<Uuid>)

  datatype RuntimeTask = RuntimeTask(
    tenant: Uuid, taskType: string, parentAgent: Option<Uuid>, childAgent: Option<Uuid>,
    parentSession: Option<string>, childSession: Option<string>, rootUser: Option<Uuid>,
    writerGeneration: int, turnId: Option<string>, rest: string)

  datatype Event = Event(
    tenant: Uuid, agent: Uuid, session: Uuid, sequence: int, schemaVersion: int,
    run: Option<Uuid>, item: Option<Uuid>, itemKind: Option<string>, lifecycle: Option<string>,
    payloadSchema: Option<string>, eventType: string, scope: Option<Json>,
    command: Option<Uuid>, input: Option<Uuid>, result: Option<Uuid>, invocation: Option<Uuid>,
    providerToolUse: Option<string>, rest: string,
    metadata: Option<map<string, Json>>,
    projectionStatus: string, projectionAttempts: int, projectionError: Option<string>, projectedAt: Option<int>)

  /** A `jsonb` column that should hold an array of UUID texts; an element that is not a UUID is None. */
  datatype IdArray = NotAnArray | Ids(elements: seq<Option<Uuid>>)

  datatype Table =
    | EventCursors | EventOutbox | Commands | TurnInputs | InputAdmissions | CarryForwards | ControlInputs
    | TurnReplacements | ToolInvocations | ModelResults | RoundObligations | NextRoundPlans | RunOutcomes
    | FeedbackAggregates

  /** A row of one of the fourteen authority tables. */
  datatype Row =
    | EventCursor(tenant: Uuid, session: Uuid)
    | OutboxEntry(tenant: Uuid, session: Uuid, event: Uuid, sequence: int)
    | Command(tenant: Uuid, session: Uuid, causation: Option<Uuid>, namespace: string, commandKind: string)
    | TurnInput(tenant: Uuid, session: Uuid, command: Uuid, intent: string, targetTurn: Option<string>,
                targetRun: Option<Uuid>, requestItem: Option<Uuid>, forkAfter: Option<int>, revision: int)
    | Admission(tenant: Uuid, session: Uuid, command: Uuid, input: Uuid, inputRevision: int, hookRun: Uuid,
                hookItem: Option<Uuid>, state: string)
    | CarryForward(tenant: Uuid, session: Uuid, sourceAdmission: Uuid, sourceInput: Uuid, sourceHookRun: Uuid,
                   contextItem: Uuid, targetTurn: Option<string>, targetRound: Option<string>,
                   consumedEvent: Option<Uuid>)
    | ControlInput(tenant: Uuid, session: Uuid, command: Uuid, controlKind: string, expectedRun: Uuid,
                   requestItem: Option<Uuid>)
    | TurnReplacement(tenant: Uuid, session: Uuid, command: Uuid, oldTurn: string, oldRun: Uuid,
                      cancelControl: Option<Uuid>, cancelCommand: Option<Uuid>, replacementTurn: string,
                      replacementInput: Uuid, state: string, lastEvent: Option<Uuid>)
    | ToolInvocation(tenant: Uuid, session: Uuid, run: Uuid, round: string, providerToolUse: string,
                     resultEvent: Option<Uuid>)
    | ModelResult(tenant: Uuid, session: Uuid, turn: string, run: Uuid, round: string, boundInputs: IdArray,
                  committedEvent: Option<Uuid>)
    | RoundObligation(tenant: Uuid, session: Uuid, turn: string, run: Uuid, sourceResult: Uuid)
    | NextRoundPlan(tenant: Uuid, session: Uuid, run: Uuid, sourceResult: Uuid, obligations: IdArray)
    | RunOutcome(tenant: Uuid, session: Uuid, turn: string, run: Uuid, terminalResult: Uuid,
                 terminalEvent: Option<Uuid>)
    | FeedbackAggregate(tenant: Uuid, session: Uuid, targetItem: Uuid, targetResult: Option<Uuid>,
                        lastMutationItem: Uuid)
  {
    function TableOf(): Table {
      match this
      case EventCursor(_, _) => EventCursors
      case OutboxEntry(_, _, _, _) => EventOutbox
      case Command(_, _, _, _, _) => Commands
      case TurnInput(_, _, _, _, _, _, _, _, _) => TurnInputs
      case Admission(_, _, _, _, _, _, _, _) => InputAdmissions
      case CarryForward(_, _, _, _, _, _, _, _, _) => CarryForwards
      case ControlInput(_, _, _, _, _, _) => ControlInputs
      case TurnReplacement(_, _, _, _, _, _, _, _, _, _, _) => TurnReplacements
      case ToolInvocation(_, _, _, _, _, _) => ToolInvocations
      case ModelResult(_, _, _, _, _, _, _) => ModelResults
      case RoundObligation(_, _, _, _, _) => RoundObligations
      case NextRoundPlan(_, _, _, _, _) => NextRoundPlans
      case RunOutcome(_, _, _, _, _, _) => RunOutcomes
      case FeedbackAggregate(_, _, _, _, _) => FeedbackAggregates
    }

    /** Same tenant and same session. */
    predicate SameFrame(other: Row) {
      tenant == other.tenant && session == other.session
    }
  }

  datatype Epoch = Epoch(state: string, newRunGeneration: int, allowed: set<int>, enforce: bool)

  datatype Key = Key(table: Table, id: Uuid)

  datatype Db = Db(
    sessions: map<Uuid, ChatSession>,
    runs: map<Uuid, RuntimeTask>,
    events: map<Uuid, Event>,
    rows: map<Key, Row>,
    epoch: Option<Epoch>)

  /** A row of the wanted table, in the frame of `row`: `x.id=id AND x.tenant_id=… AND x.session_id=…`. */
  predicate InFrame(db: Db, table: Table, id: Uuid, tenant: Uuid, session: Uuid) {
    var k := Key(table, id);
    k in db.rows && db.rows[k].TableOf() == table && db.rows[k].tenant == tenant && db.rows[k].session == session
  }

  predicate EventInFrame(db: Db, id: Uuid, tenant: Uuid, session: Uuid) {
    id in db.events && db.events[id].tenant == tenant && db.events[id].session == session
  }

  predicate ItemInFrame(db: Db, item: Uuid, tenant: Uuid, session: Uuid) {
    exists id :: id in db.events && db.events[id].item == Some(item) && EventInFrame(db, id, tenant, session)
  }
}
