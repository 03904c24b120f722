/**
 Runs of accepted and rejected writes, and the cross-table invariant they keep:
 every reference an authority row or a V2 event holds stays inside one tenant and one session.
 */
module AuthorityRuns {
  import opened Wrappers
  import opened SessionTables
  import opened BindingTrigger
  import opened EventTrigger

  /** The database together with the trigger functions installed in it. */
  datatype State = State(db: Db, binding: Revision, event: EventRevision, matrices: Matrices)

  datatype Op =
    | InsertSession(sessionId: Uuid, newSession: ChatSession)
    | UpdateSession(sessionId: Uuid, newSession: ChatSession)
    | InsertRun(runId: Uuid, newRun: RuntimeTask)
    | UpdateRun(runId: Uuid, newRun: RuntimeTask)
    | InsertEvent(eventId: Uuid, newEvent: Event)
    | UpdateEvent(eventId: Uuid, newEvent: Event)
    | InsertRow(rowId: Uuid, newRow: Row)
    | UpdateRow(rowId: Uuid, newRow: Row)
    | SetEpoch(newEpoch: Option<Epoch>)
    | InstallBinding(newBinding: Revision)
    | InstallEvent(newEventRevision: EventRevision)

  /** Whether the operation takes effect: its row exists (UPDATE) or not (INSERT), and its trigger accepts. */
  predicate Accepted(s: State, op: Op) {
    match op
    case InsertSession(id, _) => id !in s.db.sessions
    case UpdateSession(id, _) => id in s.db.sessions
    case InsertRun(id, r) => id !in s.db.runs && WriterAccepts(s.db, None, r)
    case UpdateRun(id, r) => id in s.db.runs && WriterAccepts(s.db, Some(s.db.runs[id]), r)
    case InsertEvent(id, e) => id !in s.db.events && EventAccepts(s.event, s.matrices, s.db, None, e)
    case UpdateEvent(id, e) =>
      id in s.db.events && EventAccepts(s.event, s.matrices, s.db, Some(s.db.events[id]), e)
    case InsertRow(id, r) =>
      Key(r.TableOf(), id) !in s.db.rows && BindingAccepts(s.binding, s.db, None, id, r)
    case UpdateRow(id, r) =>
      Key(r.TableOf(), id) in s.db.rows
      && BindingAccepts(s.binding, s.db, Some(s.db.rows[Key(r.TableOf(), id)]), id, r)
    case SetEpoch(_) => true
    case InstallBinding(_) => true
    case InstallEvent(_) => true
  }

  function Effect(s: State, op: Op): State {
    match op
    case InsertSession(id, c) => s.(db := s.db.(sessions := s.db.sessions[id := c]))
    case UpdateSession(id, c) => s.(db := s.db.(sessions := s.db.sessions[id := c]))
    case InsertRun(id, r) => s.(db := s.db.(runs := s.db.runs[id := r]))
    case UpdateRun(id, r) => s.(db := s.db.(runs := s.db.runs[id := r]))
    case InsertEvent(id, e) => s.(db := s.db.(events := s.db.events[id := e]))
    case UpdateEvent(id, e) => s.(db := s.db.(events := s.db.events[id := e]))
    case InsertRow(id, r) => s.(db := s.db.(rows := s.db.rows[Key(r.TableOf(), id) := r]))
    case UpdateRow(id, r) => s.(db := s.db.(rows := s.db.rows[Key(r.TableOf(), id) := r]))
    case SetEpoch(e) => s.(db := s.db.(epoch := e))
    case InstallBinding(b) => s.(binding := b)
    case InstallEvent(e) => s.(event := e)
  }

  /** A rejected statement leaves the state as it was. */
  function Step(s: State, op: Op): State {
    if Accepted(s, op) then Effect(s, op) else s
  }

  function Run(s: State, ops: seq<Op>): State
    decreases |ops|
  {
    if ops == [] then s else Run(Step(s, ops[0]), ops[1..])
  }

  /** A table after a statement: one entry is new, all others are as they were. */
  predicate PutAt<K, V(==)>(a: map<K, V>, b: map<K, V>, key: K, value: V) {
    key in b && b[key] == value && b.Keys == a.Keys + {key} && forall other :: other in a && other != key ==> b[other] == a[other]
  }

  /** An accepted statement writes its row, and nothing else changes; a refused one changes nothing. */
  lemma StepExactly(s: State, op: Op)
    ensures !Accepted(s, op) ==> Step(s, op) == s
    ensures Accepted(s, op) ==>
              var t := Step(s, op);
              && (if op.InsertSession? || op.UpdateSession? then PutAt(s.db.sessions, t.db.sessions, op.sessionId, op.newSession)
                  else t.db.sessions == s.db.sessions)
              && (if op.InsertRun? || op.UpdateRun? then PutAt(s.db.runs, t.db.runs, op.runId, op.newRun)
                  else t.db.runs == s.db.runs)
              && (if op.InsertEvent? || op.UpdateEvent? then PutAt(s.db.events, t.db.events, op.eventId, op.newEvent)
                  else t.db.events == s.db.events)
              && (if op.InsertRow? || op.UpdateRow? then PutAt(s.db.rows, t.db.rows, Key(op.newRow.TableOf(), op.rowId), op.newRow)
                  else t.db.rows == s.db.rows)
              && t.db.epoch == (if op.SetEpoch? then op.newEpoch else s.db.epoch)
              && t.binding == (if op.InstallBinding? then op.newBinding else s.binding)
              && t.event == (if op.InstallEvent? then op.newEventRevision else s.event)
              && t.matrices == s.matrices
  {
    if Accepted(s, op) { EffectExactly(s, op); }
  }

  lemma EffectExactly(s: State, op: Op)
    ensures var t := Effect(s, op);
              && (if op.InsertSession? || op.UpdateSession? then PutAt(s.db.sessions, t.db.sessions, op.sessionId, op.newSession)
                  else t.db.sessions == s.db.sessions)
              && (if op.InsertRun? || op.UpdateRun? then PutAt(s.db.runs, t.db.runs, op.runId, op.newRun)
                  else t.db.runs == s.db.runs)
              && (if op.InsertEvent? || op.UpdateEvent? then PutAt(s.db.events, t.db.events, op.eventId, op.newEvent)
                  else t.db.events == s.db.events)
              && (if op.InsertRow? || op.UpdateRow? then PutAt(s.db.rows, t.db.rows, Key(op.newRow.TableOf(), op.rowId), op.newRow)
                  else t.db.rows == s.db.rows)
              && t.db.epoch == (if op.SetEpoch? then op.newEpoch else s.db.epoch)
              && t.binding == (if op.InstallBinding? then op.newBinding else s.binding)
              && t.event == (if op.InstallEvent? then op.newEventRevision else s.event)
              && t.matrices == s.matrices
  {
  }

  /** Inserts need a new identifier and updates an old one; sessions, epochs and revisions have no trigger here. */
  lemma AcceptedNeedsRow(s: State, op: Op)
    ensures op.InsertSession? ==> (Accepted(s, op) <==> op.sessionId !in s.db.sessions)
    ensures op.UpdateSession? ==> (Accepted(s, op) <==> op.sessionId in s.db.sessions)
    ensures op.InsertRun? ==> (Accepted(s, op) <==> op.runId !in s.db.runs && WriterAccepts(s.db, None, op.newRun))
    ensures op.UpdateRun? ==>
              (Accepted(s, op) <==> op.runId in s.db.runs && WriterAccepts(s.db, Some(s.db.runs[op.runId]), op.newRun))
    ensures op.SetEpoch? || op.InstallBinding? || op.InstallEvent? ==> Accepted(s, op)
  {
  }

  /* ---- What these triggers leave to their environment ---- */

  predicate KeptOnceSet<T(==)>(a: Option<T>, b: Option<T>) {
    a.Some? ==> b == a
  }

  /** Identity columns of sessions, runs and events are written once. */
  predicate IdentityKept(s: State, op: Op) {
    match op
    case UpdateSession(id, c) =>
      id in s.db.sessions ==> c.tenant == s.db.sessions[id].tenant && c.agent == s.db.sessions[id].agent
    case UpdateRun(id, r) =>
      id in s.db.runs ==>
        var prior := s.db.runs[id];
        && r.tenant == prior.tenant
        && KeptOnceSet(prior.parentAgent, r.parentAgent) && KeptOnceSet(prior.childAgent, r.childAgent)
        && KeptOnceSet(prior.parentSession, r.parentSession) && KeptOnceSet(prior.childSession, r.childSession)
    case UpdateEvent(id, e) =>
      id in s.db.events ==>
        var prior := s.db.events[id];
        e.tenant == prior.tenant && e.session == prior.session && e.agent == prior.agent
        && e.item == prior.item && e.sequence == prior.sequence
    case _ => true
  }

  predicate IdentityKeptRun(s: State, ops: seq<Op>)
    decreases |ops|
  {
    ops == [] || (IdentityKept(s, ops[0]) && IdentityKeptRun(Step(s, ops[0]), ops[1..]))
  }

  /* ---- The invariant ---- */

  /** The run belongs to the frame: its tenant matches and its parent or child side is this session. */
  predicate RunInFrame(db: Db, runId: Uuid, tenant: Uuid, session: Uuid) {
    && runId in db.runs && session in db.sessions
    && var run := db.runs[runId];
    && run.tenant == tenant
    && ((Denotes(run.parentSession, session) && run.parentAgent == Some(db.sessions[session].agent))
        || (Denotes(run.childSession, session)
            && (run.childAgent == Some(db.sessions[session].agent)
                || run.parentAgent == Some(db.sessions[session].agent))))
  }

  /** Every reference of the row that is not NULL resolves in the row's own tenant and session. */
  predicate References(db: Db, r: Row) {
    match r
    case EventCursor(_, _) => true
    case OutboxEntry(t, s, event, _) => EventInFrame(db, event, t, s)
    case Command(t, s, causation, _, _) => causation.Some? ==> InFrame(db, Commands, causation.value, t, s)
    case TurnInput(t, s, command, _, _, targetRun, requestItem, _, _) =>
      && InFrame(db, Commands, command, t, s)
      && (targetRun.Some? ==> RunInFrame(db, targetRun.value, t, s))
      && (requestItem.Some? ==> ItemInFrame(db, requestItem.value, t, s))
    case Admission(t, s, command, input, _, _, hookItem, _) =>
      && InFrame(db, Commands, command, t, s) && InFrame(db, TurnInputs, input, t, s)
      && (hookItem.Some? ==> ItemInFrame(db, hookItem.value, t, s))
    case CarryForward(t, s, admission, input, _, _, _, _, consumed) =>
      && InFrame(db, InputAdmissions, admission, t, s) && InFrame(db, TurnInputs, input, t, s)
      && (consumed.Some? ==> EventInFrame(db, consumed.value, t, s))
    case ControlInput(t, s, command, _, run, requestItem) =>
      && InFrame(db, Commands, command, t, s) && RunInFrame(db, run, t, s)
      && (requestItem.Some? ==> ItemInFrame(db, requestItem.value, t, s))
    case TurnReplacement(t, s, command, _, oldRun, cancelControl, cancelCommand, _, input, _, lastEvent) =>
      && InFrame(db, Commands, command, t, s) && RunInFrame(db, oldRun, t, s)
      && InFrame(db, TurnInputs, input, t, s)
      && (cancelControl.Some? ==> InFrame(db, ControlInputs, cancelControl.value, t, s))
      && (cancelCommand.Some? ==> InFrame(db, Commands, cancelCommand.value, t, s))
      && (lastEvent.Some? ==> EventInFrame(db, lastEvent.value, t, s))
    case ToolInvocation(t, s, run, _, _, resultEvent) =>
      && RunInFrame(db, run, t, s)
      && (resultEvent.Some? ==> EventInFrame(db, resultEvent.value, t, s))
    case ModelResult(t, s, _, run, _, inputs, committed) =>
      && RunInFrame(db, run, t, s) && AllInFrame(db, TurnInputs, inputs, t, s)
      && (committed.Some? ==> EventInFrame(db, committed.value, t, s))
    case RoundObligation(t, s, _, run, result) =>
      RunInFrame(db, run, t, s) && InFrame(db, ModelResults, result, t, s)
    case NextRoundPlan(t, s, run, result, obligations) =>
      && RunInFrame(db, run, t, s) && InFrame(db, ModelResults, result, t, s)
      && AllInFrame(db, RoundObligations, obligations, t, s)
    case RunOutcome(t, s, _, run, result, terminalEvent) =>
      && RunInFrame(db, run, t, s) && InFrame(db, ModelResults, result, t, s)
      && (terminalEvent.Some? ==> EventInFrame(db, terminalEvent.value, t, s))
    case FeedbackAggregate(t, s, item, result, mutation) =>
      && ItemInFrame(db, item, t, s) && ItemInFrame(db, mutation, t, s)
      && (result.Some? ==> InFrame(db, ModelResults, result.value, t, s))
  }

  /** The references of a V2 event. */
  predicate EventReferences(db: Db, e: Event) {
    e.schemaVersion == 2 ==>
      && (e.run.Some? ==> RunInFrame(db, e.run.value, e.tenant, e.session))
      && (e.command.Some? ==> InFrame(db, Commands, e.command.value, e.tenant, e.session))
      && (e.input.Some? ==> InFrame(db, TurnInputs, e.input.value, e.tenant, e.session))
      && (e.result.Some? ==> InFrame(db, ModelResults, e.result.value, e.tenant, e.session))
      && (e.invocation.Some? ==> InFrame(db, ToolInvocations, e.invocation.value, e.tenant, e.session))
  }

  predicate RowSound(db: Db, k: Key)
    requires k in db.rows
  {
    db.rows[k].TableOf() == k.table && TenantBound(db, db.rows[k]) && References(db, db.rows[k])
  }

  predicate EventSound(db: Db, id: Uuid)
    requires id in db.events
  {
    EventBound(db, db.events[id]) && EventReferences(db, db.events[id])
  }

  ghost predicate Sound(db: Db) {
    (forall k :: k in db.rows ==> RowSound(db, k)) && (forall id :: id in db.events ==> EventSound(db, id))
  }

  /* ---- One step ---- */

  /** Nothing a frame lookup depends on is lost or moved between `a` and `b`. */
  ghost predicate FramesKept(a: Db, b: Db) {
    && (forall id :: id in a.sessions ==>
          id in b.sessions && b.sessions[id].tenant == a.sessions[id].tenant
          && b.sessions[id].agent == a.sessions[id].agent)
    && (forall id :: id in a.runs ==>
          id in b.runs && b.runs[id].tenant == a.runs[id].tenant
          && KeptOnceSet(a.runs[id].parentAgent, b.runs[id].parentAgent)
          && KeptOnceSet(a.runs[id].childAgent, b.runs[id].childAgent)
          && KeptOnceSet(a.runs[id].parentSession, b.runs[id].parentSession)
          && KeptOnceSet(a.runs[id].childSession, b.runs[id].childSession))
    && (forall id :: id in a.events ==>
          id in b.events && b.events[id].tenant == a.events[id].tenant && b.events[id].session == a.events[id].session
          && b.events[id].agent == a.events[id].agent && b.events[id].item == a.events[id].item)
    && (forall k :: k in a.rows ==>
          k in b.rows && b.rows[k].SameFrame(a.rows[k]) && (a.rows[k].TableOf() == k.table ==> b.rows[k].TableOf() == k.table))
  }

  /** An insert of a session, a run or an event is of a new one. */
  predicate Fresh(db: Db, op: Op) {
    match op
    case InsertSession(id, _) => id !in db.sessions
    case InsertRun(id, _) => id !in db.runs
    case InsertEvent(id, _) => id !in db.events
    case _ => true
  }

  lemma AcceptedIsFresh(s: State, op: Op)
    requires Accepted(s, op)
    ensures Fresh(s.db, op) && Step(s, op) == Effect(s, op)
  {
  }

  lemma SessionWriteKeepsFrames(s: State, op: Op)
    requires IdentityKept(s, op) && Fresh(s.db, op) && (op.InsertSession? || op.UpdateSession?)
    ensures FramesKept(s.db, Effect(s, op).db)
  {
  }

  lemma RunWriteKeepsFrames(s: State, op: Op)
    requires IdentityKept(s, op) && Fresh(s.db, op) && (op.InsertRun? || op.UpdateRun?)
    ensures FramesKept(s.db, Effect(s, op).db)
  {
  }

  lemma EventWriteKeepsFrames(s: State, op: Op)
    requires IdentityKept(s, op) && Fresh(s.db, op) && (op.InsertEvent? || op.UpdateEvent?)
    ensures FramesKept(s.db, Effect(s, op).db)
  {
  }

  lemma RowWriteKeepsFrames(s: State, op: Op)
    requires IdentityKept(s, op) && Accepted(s, op) && (op.InsertRow? || op.UpdateRow?)
    ensures FramesKept(s.db, Effect(s, op).db)
  {
  }

  lemma EffectKeepsFrames(s: State, op: Op)
    requires IdentityKept(s, op) && Fresh(s.db, op)
    requires op.InsertRow? || op.UpdateRow? ==> Accepted(s, op)
    ensures FramesKept(s.db, Effect(s, op).db)
  {
    if op.InsertSession? || op.UpdateSession? {
      SessionWriteKeepsFrames(s, op);
    } else if op.InsertRun? || op.UpdateRun? {
      RunWriteKeepsFrames(s, op);
    } else if op.InsertEvent? || op.UpdateEvent? {
      EventWriteKeepsFrames(s, op);
    } else if op.InsertRow? || op.UpdateRow? {
      RowWriteKeepsFrames(s, op);
    }
  }

  lemma StepKeepsFrames(s: State, op: Op)
    requires IdentityKept(s, op)
    ensures FramesKept(s.db, Step(s, op).db)
  {
    if Accepted(s, op) {
      AcceptedIsFresh(s, op);
      EffectKeepsFrames(s, op);
    }
  }

  lemma ItemKept(a: Db, b: Db, item: Uuid, tenant: Uuid, session: Uuid)
    requires FramesKept(a, b) && ItemInFrame(a, item, tenant, session)
    ensures ItemInFrame(b, item, tenant, session)
  {
    var id :| id in a.events && a.events[id].item == Some(item) && EventInFrame(a, id, tenant, session);
    assert EventInFrame(b, id, tenant, session);
  }

  lemma InFrameKept(a: Db, b: Db, table: Table, id: Uuid, tenant: Uuid, session: Uuid)
    requires FramesKept(a, b) && InFrame(a, table, id, tenant, session)
    ensures InFrame(b, table, id, tenant, session)
  {
    assert Key(table, id) in a.rows;
  }

  lemma AllInFrameKept(a: Db, b: Db, table: Table, ids: IdArray, tenant: Uuid, session: Uuid)
    requires FramesKept(a, b) && AllInFrame(a, table, ids, tenant, session)
    ensures AllInFrame(b, table, ids, tenant, session)
  {
    forall i | 0 <= i < |ids.elements|
      ensures ids.elements[i].Some? && InFrame(b, table, ids.elements[i].value, tenant, session)
    {
      InFrameKept(a, b, table, ids.elements[i].value, tenant, session);
    }
  }

  lemma RunInFrameKept(a: Db, b: Db, run: Uuid, tenant: Uuid, session: Uuid)
    requires FramesKept(a, b) && RunInFrame(a, run, tenant, session)
    ensures RunInFrame(b, run, tenant, session)
  {
  }

  lemma ReferencesKept(a: Db, b: Db, r: Row)
    requires FramesKept(a, b) && References(a, r)
    ensures References(b, r)
  {
    forall table, id | InFrame(a, table, id, r.tenant, r.session)
      ensures InFrame(b, table, id, r.tenant, r.session)
    {
      InFrameKept(a, b, table, id, r.tenant, r.session);
    }
    forall id | RunInFrame(a, id, r.tenant, r.session) ensures RunInFrame(b, id, r.tenant, r.session) {
      RunInFrameKept(a, b, id, r.tenant, r.session);
    }
    forall item | ItemInFrame(a, item, r.tenant, r.session) ensures ItemInFrame(b, item, r.tenant, r.session) {
      ItemKept(a, b, item, r.tenant, r.session);
    }
    if r.ModelResult? { AllInFrameKept(a, b, TurnInputs, r.boundInputs, r.tenant, r.session); }
    if r.NextRoundPlan? { AllInFrameKept(a, b, RoundObligations, r.obligations, r.tenant, r.session); }
  }

  lemma EventReferencesKept(a: Db, b: Db, e: Event)
    requires FramesKept(a, b) && EventReferences(a, e)
    ensures EventReferences(b, e)
  {
    forall table, id | InFrame(a, table, id, e.tenant, e.session)
      ensures InFrame(b, table, id, e.tenant, e.session)
    {
      InFrameKept(a, b, table, id, e.tenant, e.session);
    }
    if e.schemaVersion == 2 && e.run.Some? { RunInFrameKept(a, b, e.run.value, e.tenant, e.session); }
  }

  /** Run authority, at every revision, puts the run in the row's frame. */
  lemma AuthorityGivesFrame(db: Db, clause: RunClause, run: Uuid, tenant: Uuid, session: Uuid)
    requires RunAuthority(db, clause, run, tenant, session)
    ensures RunInFrame(db, run, tenant, session)
  {
    NormalizedTextIsExact(session);
  }

  lemma AllAuthorityGivesFrame(db: Db, tenant: Uuid, session: Uuid)
    ensures forall clause, run :: RunAuthority(db, clause, run, tenant, session) ==> RunInFrame(db, run, tenant, session)
  {
    forall clause, run | RunAuthority(db, clause, run, tenant, session)
      ensures RunInFrame(db, run, tenant, session)
    {
      AuthorityGivesFrame(db, clause, run, tenant, session);
    }
  }

  lemma InputSideIsSound(rev: Revision, db: Db, id: Uuid, r: Row)
    requires Branch(rev, db, id, r) && (r.TurnInput? || r.ControlInput? || r.TurnReplacement?)
    ensures References(db, r)
  {
    AllAuthorityGivesFrame(db, r.tenant, r.session);
  }

  lemma RoundSideIsSound(rev: Revision, db: Db, id: Uuid, r: Row)
    requires Branch(rev, db, id, r) && (r.ToolInvocation? || r.ModelResult?)
    ensures References(db, r)
  {
    AllAuthorityGivesFrame(db, r.tenant, r.session);
  }

  lemma ResultSideIsSound(rev: Revision, db: Db, id: Uuid, r: Row)
    requires Branch(rev, db, id, r) && (r.RoundObligation? || r.NextRoundPlan? || r.RunOutcome?)
    ensures References(db, r)
  {
    AllAuthorityGivesFrame(db, r.tenant, r.session);
  }

  lemma RunlessIsSound(rev: Revision, db: Db, id: Uuid, r: Row)
    requires Branch(rev, db, id, r)
    requires r.EventCursor? || r.OutboxEntry? || r.Command? || r.Admission? || r.CarryForward? || r.FeedbackAggregate?
    ensures References(db, r)
  {
    if r.Admission? && r.hookItem.Some? {
      var e :| e in db.events && EventInFrame(db, e, r.tenant, r.session) && db.events[e].item == r.hookItem;
      assert ItemInFrame(db, r.hookItem.value, r.tenant, r.session);
    } else if r.FeedbackAggregate? {
      var e :| e in db.events && EventInFrame(db, e, r.tenant, r.session) && db.events[e].item == Some(r.targetItem);
      assert ItemInFrame(db, r.targetItem, r.tenant, r.session);
    }
  }

  /** An accepted row has its session's tenant, and its references resolve in its own frame. */
  lemma AcceptedRowIsSound(rev: Revision, db: Db, prior: Option<Row>, id: Uuid, r: Row)
    requires BindingAccepts(rev, db, prior, id, r)
    ensures TenantBound(db, r) && References(db, r)
  {
    if r.TurnInput? || r.ControlInput? || r.TurnReplacement? {
      InputSideIsSound(rev, db, id, r);
    } else if r.ToolInvocation? || r.ModelResult? {
      RoundSideIsSound(rev, db, id, r);
    } else if r.RoundObligation? || r.NextRoundPlan? || r.RunOutcome? {
      ResultSideIsSound(rev, db, id, r);
    } else {
      RunlessIsSound(rev, db, id, r);
    }
  }

  /** So does an event the event trigger accepts, unless only its projection side-car changed. */
  lemma AcceptedEventIsSound(rev: EventRevision, m: Matrices, db: Db, e: Event)
    requires EventBound(db, e) && CanonicalWriteAccepted(rev, m, db, e)
    ensures EventReferences(db, e)
  {
    NormalizedTextIsExact(e.session);
  }

  /** A row that is there after a step was there before, or was accepted by this step. */
  lemma RowIsOldOrAccepted(s: State, op: Op, k: Key) returns (prior: Option<Row>)
    requires k in Step(s, op).db.rows
    ensures var r := Step(s, op).db.rows[k];
            || (k in s.db.rows && r == s.db.rows[k])
            || (r.TableOf() == k.table && BindingAccepts(s.binding, s.db, prior, k.id, r))
  {
    prior := if op.UpdateRow? && k in s.db.rows then Some(s.db.rows[k]) else None;
  }

  lemma RowSoundBefore(s: State, op: Op, k: Key, r: Row)
    requires Sound(s.db) && k in Step(s, op).db.rows && r == Step(s, op).db.rows[k]
    ensures r.TableOf() == k.table && TenantBound(s.db, r) && References(s.db, r)
  {
    var prior := RowIsOldOrAccepted(s, op, k);
    if k in s.db.rows && r == s.db.rows[k] {
      assert RowSound(s.db, k);
    } else {
      AcceptedRowIsSound(s.binding, s.db, prior, k.id, r);
    }
  }

  lemma RowStaysSound(a: Db, b: Db, k: Key)
    requires FramesKept(a, b) && k in b.rows && b.rows[k].TableOf() == k.table
    requires TenantBound(a, b.rows[k]) && References(a, b.rows[k])
    ensures RowSound(b, k)
  {
    ReferencesKept(a, b, b.rows[k]);
  }

  lemma EventIsOldOrAccepted(s: State, op: Op, id: Uuid)
    requires id in Step(s, op).db.events
    ensures var e := Step(s, op).db.events[id];
            || (id in s.db.events && (e == s.db.events[id] || (ProjectionOnly(s.event, Some(s.db.events[id]), e))))
            || (EventBound(s.db, e) && CanonicalWriteAccepted(s.event, s.matrices, s.db, e))
  {
  }

  lemma EventSoundBefore(s: State, op: Op, id: Uuid, e: Event)
    requires Sound(s.db) && id in Step(s, op).db.events && e == Step(s, op).db.events[id]
    ensures EventBound(s.db, e) && EventReferences(s.db, e)
  {
    EventIsOldOrAccepted(s, op, id);
    if EventBound(s.db, e) && CanonicalWriteAccepted(s.event, s.matrices, s.db, e) {
      AcceptedEventIsSound(s.event, s.matrices, s.db, e);
    } else {
      assert EventSound(s.db, id);
      assert Canonical(e) == Canonical(s.db.events[id]);
    }
  }

  lemma EventStaysSound(a: Db, b: Db, id: Uuid)
    requires FramesKept(a, b) && id in b.events && EventBound(a, b.events[id]) && EventReferences(a, b.events[id])
    ensures EventSound(b, id)
  {
    EventReferencesKept(a, b, b.events[id]);
  }

  lemma StepKeepsSound(s: State, op: Op)
    requires Sound(s.db) && IdentityKept(s, op)
    ensures Sound(Step(s, op).db)
  {
    var b := Step(s, op).db;
    StepKeepsFrames(s, op);
    forall k | k in b.rows ensures RowSound(b, k) {
      RowSoundBefore(s, op, k, b.rows[k]);
      RowStaysSound(s.db, b, k);
    }
    forall id | id in b.events ensures EventSound(b, id) {
      EventSoundBefore(s, op, id, b.events[id]);
      EventStaysSound(s.db, b, id);
    }
  }

  /**
   Main result. In every state that any run of inserts, updates, epoch changes and trigger
   replacements reaches, every authority row has its session's tenant, and every reference an
   authority row or a V2 event holds resolves inside its own tenant and session.
   */
  lemma {:induction false} RunsKeepFrames(s: State, ops: seq<Op>)
    requires Sound(s.db) && IdentityKeptRun(s, ops)
    ensures Sound(Run(s, ops).db)
    decreases |ops|
  {
    if ops != [] {
      StepKeepsSound(s, ops[0]);
      RunsKeepFrames(Step(s, ops[0]), ops[1..]);
    }
  }

  /* ---- Causation chains ---- */

  /** `chain` follows `causation_command_id` from one command to the next. */
  predicate CausationChain(db: Db, chain: seq<Uuid>) {
    && (forall i :: 0 <= i < |chain| ==>
          Key(Commands, chain[i]) in db.rows && db.rows[Key(Commands, chain[i])].Command?)
    && (forall i :: 0 <= i < |chain| - 1 ==>
          db.rows[Key(Commands, chain[i])].causation == Some(chain[i + 1]))
  }

  /** However long, a causation chain never leaves the tenant and session it starts in. */
  lemma {:induction false} CausationStaysInSession(db: Db, chain: seq<Uuid>, i: nat)
    requires Sound(db) && CausationChain(db, chain) && i < |chain|
    ensures db.rows[Key(Commands, chain[i])].SameFrame(db.rows[Key(Commands, chain[0])])
  {
    if i > 0 {
      CausationStaysInSession(db, chain, i - 1);
      assert RowSound(db, Key(Commands, chain[i - 1]));
    }
  }
}
