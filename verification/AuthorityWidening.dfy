/**
 What the later trigger revisions change. From the admission revision on, the binding trigger
 only widens, and only by exact child sessions; the event trigger widens at every revision.
 The two revisions before that are not widenings: for every row that one of two neighbouring
 revisions accepts, it is stated exactly when the other does.
 */
module AuthorityWidening {
  import opened Wrappers
  import opened SessionTables
  import opened BindingTrigger
  import opened EventTrigger

  /** The run a row's authority rests on, for the tables whose branch names one. */
  function RunOf(r: Row): Option<Uuid> {
    match r
    case TurnInput(_, _, _, _, _, targetRun, _, _, _) => targetRun
    case ControlInput(_, _, _, _, run, _) => Some(run)
    case ToolInvocation(_, _, run, _, _, _) => Some(run)
    case ModelResult(_, _, _, run, _, _, _) => Some(run)
    case RoundObligation(_, _, _, run, _) => Some(run)
    case NextRoundPlan(_, _, run, _, _) => Some(run)
    case RunOutcome(_, _, _, run, _, _) => Some(run)
    case _ => None
  }

  /** The row's session is the one child session bound to the run, for a kind of run `rev` admits. */
  predicate ExactChild(rev: Revision, db: Db, run: Uuid, r: Row) {
    && run in db.runs && r.session in db.sessions
    && !ParentBound(db, db.runs[run], r.session)
    && ((rev.Rank() >= 3 && DelegationChild(db, run, db.runs[run], r.tenant, r.session))
        || (rev.Rank() >= 4 && BusinessTaskChild(db, run, db.runs[run], r.tenant, r.session)))
    && (r.ControlInput? ==>
          r.controlKind == "permission_response"
          && (db.runs[run].taskType == "business_task" || rev.Rank() >= 6))
  }

  /** The run condition of the row's branch; true where the branch has none of the kinds that were rewritten. */
  predicate RunPart(rev: Revision, db: Db, r: Row) {
    RunOf(r).Some? ==>
      RunAuthority(db, ClauseFor(rev, r.TableOf(), r.ControlInput? && r.controlKind == "permission_response"),
                   RunOf(r).value, r.tenant, r.session)
  }

  lemma BranchHasRunPart(rev: Revision, db: Db, id: Uuid, r: Row)
    requires Branch(rev, db, id, r)
    ensures RunPart(rev, db, r)
  {
  }

  lemma ReplacementNeedsOnlyRunPart(a: Revision, b: Revision, db: Db, r: Row)
    requires 2 <= a.Rank() && 2 <= b.Rank() && r.TurnReplacement? && ReplacementBranch(a, db, r)
    ensures ReplacementBranch(b, db, r)
  {
    var saga := db.rows[Key(Commands, r.command)];
    var input := db.rows[Key(TurnInputs, r.replacementInput)];
    assert AdmittedBranch(a, db, r, input, saga.causation.value);
    assert AdmittedBranch(b, db, r, input, saga.causation.value);
  }

  /** From the admission revision on, revisions differ in the run condition and in nothing else. */
  lemma BranchNeedsOnlyRunPart(a: Revision, b: Revision, db: Db, id: Uuid, r: Row)
    requires 2 <= a.Rank() && 2 <= b.Rank()
    requires Branch(a, db, id, r) && RunPart(b, db, r)
    ensures Branch(b, db, id, r)
  {
    if r.TurnReplacement? { ReplacementNeedsOnlyRunPart(a, b, db, r); }
  }

  lemma LaterRunPart(a: Revision, b: Revision, db: Db, r: Row)
    requires a.Rank() <= b.Rank() && RunPart(a, db, r)
    ensures RunPart(b, db, r)
  {
  }

  /** What a later run condition adds is an exact child session. */
  lemma NewRunPart(a: Revision, b: Revision, db: Db, r: Row)
    requires 2 <= a.Rank() <= b.Rank() && RunPart(b, db, r) && !RunPart(a, db, r)
    requires TenantBound(db, r)
    ensures RunOf(r).Some? && ExactChild(b, db, RunOf(r).value, r)
    ensures db.sessions[r.session].runtimeTask == RunOf(r)
    ensures forall other: Uuid :: Denotes(db.runs[RunOf(r).value].childSession, other) ==> other == r.session
  {
  }

  /**
   For the four rewrites from `delegation_session_rounds_1017` to `delegation_permissions_1022`:
   every row accepted before is accepted after.
   */
  lemma LaterBindingAcceptsMore(a: Revision, b: Revision, db: Db, prior: Option<Row>, id: Uuid, r: Row)
    requires 2 <= a.Rank() <= b.Rank()
    requires BindingAccepts(a, db, prior, id, r)
    ensures BindingAccepts(b, db, prior, id, r)
  {
    BranchHasRunPart(a, db, id, r);
    LaterRunPart(a, b, db, r);
    BranchNeedsOnlyRunPart(a, b, db, id, r);
  }

  /**
   Every newly accepted row names a run, and its session is that run's exact bound child: the child
   session row points back at the run, and no other session is denoted by the run's child text.
   */
  lemma NewAcceptanceIsExactChild(a: Revision, b: Revision, db: Db, prior: Option<Row>, id: Uuid, r: Row)
    requires 2 <= a.Rank() <= b.Rank()
    requires BindingAccepts(b, db, prior, id, r) && !BindingAccepts(a, db, prior, id, r)
    ensures RunOf(r).Some? && ExactChild(b, db, RunOf(r).value, r)
    ensures db.sessions[r.session].runtimeTask == RunOf(r)
    ensures forall other: Uuid :: Denotes(db.runs[RunOf(r).value].childSession, other) ==> other == r.session
  {
    BranchHasRunPart(b, db, id, r);
    if RunPart(a, db, r) { BranchNeedsOnlyRunPart(b, a, db, id, r); }
    NewRunPart(a, b, db, r);
  }

  /** The same four rewrites leave the tables they do not name alone, in both directions. */
  lemma OtherBranchesAreUntouched(a: Revision, b: Revision, db: Db, prior: Option<Row>, id: Uuid, r: Row)
    requires 2 <= a.Rank() <= b.Rank()
    requires RunOf(r).None?
    ensures BindingAccepts(a, db, prior, id, r) <==> BindingAccepts(b, db, prior, id, r)
  {
    if BindingAccepts(b, db, prior, id, r) { BranchNeedsOnlyRunPart(b, a, db, id, r); }
    if BindingAccepts(a, db, prior, id, r) { BranchNeedsOnlyRunPart(a, b, db, id, r); }
  }

  /* ---- The two revisions before that ---- */

  /** Up to the admission revision no branch admits a child session. */
  lemma EarlyClauses(a: Revision, b: Revision, table: Table, permission: bool)
    requires a.Rank() <= 2 && b.Rank() <= 2
    ensures ClauseFor(a, table, permission) == ClauseFor(b, table, permission)
  {
  }

  lemma EarlyInputBranches(a: Revision, b: Revision, db: Db, id: Uuid, r: Row)
    requires a.Rank() <= 2 && b.Rank() <= 2 && (r.TurnInput? || r.ControlInput?)
    ensures Branch(a, db, id, r) <==> Branch(b, db, id, r)
  {
    EarlyClauses(a, b, r.TableOf(), r.ControlInput? && r.controlKind == "permission_response");
  }

  lemma EarlyRoundBranches(a: Revision, b: Revision, db: Db, id: Uuid, r: Row)
    requires a.Rank() <= 2 && b.Rank() <= 2 && (r.ToolInvocation? || r.ModelResult?)
    ensures Branch(a, db, id, r) <==> Branch(b, db, id, r)
  {
    EarlyClauses(a, b, r.TableOf(), false);
  }

  lemma EarlyResultBranches(a: Revision, b: Revision, db: Db, id: Uuid, r: Row)
    requires a.Rank() <= 2 && b.Rank() <= 2 && (r.RoundObligation? || r.NextRoundPlan? || r.RunOutcome?)
    ensures Branch(a, db, id, r) <==> Branch(b, db, id, r)
  {
    EarlyClauses(a, b, r.TableOf(), false);
  }

  lemma EarlyPlainBranches(a: Revision, b: Revision, db: Db, id: Uuid, r: Row)
    requires r.EventCursor? || r.OutboxEntry? || r.Command? || r.CarryForward? || r.FeedbackAggregate?
    ensures Branch(a, db, id, r) <==> Branch(b, db, id, r)
  {
  }

  lemma EarlyBranches(a: Revision, b: Revision, db: Db, id: Uuid, r: Row)
    requires a.Rank() <= 2 && b.Rank() <= 2 && !r.Admission? && !r.TurnReplacement?
    ensures Branch(a, db, id, r) <==> Branch(b, db, id, r)
  {
    if r.TurnInput? || r.ControlInput? {
      EarlyInputBranches(a, b, db, id, r);
    } else if r.ToolInvocation? || r.ModelResult? {
      EarlyRoundBranches(a, b, db, id, r);
    } else if r.RoundObligation? || r.NextRoundPlan? || r.RunOutcome? {
      EarlyResultBranches(a, b, db, id, r);
    } else {
      EarlyPlainBranches(a, b, db, id, r);
    }
  }

  /** Up to the admission revision, exactly admissions and sagas are treated differently. */
  lemma EarlyRevisionsTouchTwoTables(a: Revision, b: Revision, db: Db, prior: Option<Row>, id: Uuid, r: Row)
    requires a.Rank() <= 2 && b.Rank() <= 2 && !r.Admission? && !r.TurnReplacement?
    ensures BindingAccepts(a, db, prior, id, r) <==> BindingAccepts(b, db, prior, id, r)
  {
    EarlyBranches(a, b, db, id, r);
  }

  /** Neither half of a cancel pair is named. */
  predicate NoCancelPair(r: Row)
    requires r.TurnReplacement?
  {
    r.cancelControl.None? && r.cancelCommand.None?
  }

  /** The replacement input still targets the turn and the run that are replaced. */
  predicate TargetsOld(db: Db, r: Row)
    requires r.TurnReplacement?
  {
    && Key(TurnInputs, r.replacementInput) in db.rows
    && var input := db.rows[Key(TurnInputs, r.replacementInput)];
    input.TurnInput? && input.targetTurn == Some(r.oldTurn) && input.targetRun == Some(r.oldRun)
  }

  const LATE_STATES := {"replacement_queued", "replacement_admitted", "completed", "failed", "needs_reconciliation"}
  const EARLY_STATES := {"requested", "cancel_accepted", "old_run_fenced"}

  /**
   The input-control revision is not a widening. A saga the first revision accepts is accepted by it
   exactly in a state that is known and past `requested`.
   */
  lemma CrossingInputControl(db: Db, prior: Option<Row>, id: Uuid, r: Row)
    requires r.TurnReplacement? && BindingAccepts(Base0716, db, prior, id, r)
    ensures BindingAccepts(InputControl0716, db, prior, id, r)
            <==> r.state in EARLY_STATES + LATE_STATES && r.state != "requested"
  {
    BaseSagaCrosses(db, r);
  }

  lemma BaseSagaCrosses(db: Db, r: Row)
    requires r.TurnReplacement? && ReplacementBranch(Base0716, db, r)
    ensures ReplacementBranch(InputControl0716, db, r)
            <==> r.state in EARLY_STATES + LATE_STATES && r.state != "requested"
  {
    var saga := db.rows[Key(Commands, r.command)];
    var input := db.rows[Key(TurnInputs, r.replacementInput)];
    EarlyClauses(Base0716, InputControl0716, TurnReplacements, false);
    assert AdmittedBranch(Base0716, db, r, input, saga.causation.value)
        <==> AdmittedBranch(InputControl0716, db, r, input, saga.causation.value);
  }

  /** And one it accepts was accepted before exactly with its cancel pair, while its input targets the old run. */
  lemma NewWithInputControl(db: Db, prior: Option<Row>, id: Uuid, r: Row)
    requires r.TurnReplacement? && BindingAccepts(InputControl0716, db, prior, id, r)
    ensures BindingAccepts(Base0716, db, prior, id, r) <==> CancelAuthority(db, r) && TargetsOld(db, r)
  {
    var saga := db.rows[Key(Commands, r.command)];
    var input := db.rows[Key(TurnInputs, r.replacementInput)];
    EarlyClauses(Base0716, InputControl0716, TurnReplacements, false);
    assert AdmittedBranch(Base0716, db, r, input, saga.causation.value)
        <==> AdmittedBranch(InputControl0716, db, r, input, saga.causation.value);
  }

  /** A saga in state `requested` is never accepted on both sides. */
  lemma RequestedSagaChangesSides(db: Db, prior: Option<Row>, id: Uuid, r: Row, later: Revision)
    requires r.TurnReplacement? && r.state == "requested" && 1 <= later.Rank()
    ensures !(BindingAccepts(Base0716, db, prior, id, r) && BindingAccepts(later, db, prior, id, r))
  {
  }

  /** The admission revision narrows admissions to revisions their input has reached. */
  lemma CrossingAdmissionRevision(a: Revision, db: Db, prior: Option<Row>, id: Uuid, r: Row)
    requires r.Admission? && a.Rank() < 2 && BindingAccepts(a, db, prior, id, r)
    ensures BindingAccepts(AdmissionRevision0716, db, prior, id, r)
            <==> 0 < r.inputRevision <= db.rows[Key(TurnInputs, r.input)].revision
  {
  }

  /** And it admits no admission that was not accepted before. */
  lemma AdmissionsOnlyNarrow(a: Revision, b: Revision, db: Db, prior: Option<Row>, id: Uuid, r: Row)
    requires r.Admission? && a.Rank() < 2 && BindingAccepts(b, db, prior, id, r)
    ensures BindingAccepts(a, db, prior, id, r)
  {
  }

  /** The revision of the saga's own input was admitted. */
  predicate OwnRevisionAdmitted(db: Db, r: Row)
    requires r.TurnReplacement?
  {
    && Key(TurnInputs, r.replacementInput) in db.rows
    && var input := db.rows[Key(TurnInputs, r.replacementInput)];
    && input.TurnInput?
    && exists k ::
      && k in db.rows && db.rows[k].Admission? && db.rows[k].SameFrame(r)
      && db.rows[k].input == r.replacementInput && db.rows[k].command == input.command
      && db.rows[k].state == "admitted" && db.rows[k].inputRevision == input.revision
  }

  /** A saga accepted before it is accepted by the admission revision exactly if its input's own revision was admitted. */
  lemma SagaCrossesAdmissionRevision(db: Db, prior: Option<Row>, id: Uuid, r: Row)
    requires r.TurnReplacement? && BindingAccepts(InputControl0716, db, prior, id, r)
    ensures BindingAccepts(AdmissionRevision0716, db, prior, id, r) <==> OwnRevisionAdmitted(db, r)
  {
    EarlyClauses(InputControl0716, AdmissionRevision0716, TurnReplacements, false);
    ChainCrossesAdmissionRevision(db, r);
    CancelsAlike(db, r);
  }

  lemma ChainCrossesAdmissionRevision(db: Db, r: Row)
    requires r.TurnReplacement? && SagaChain(InputControl0716, db, r)
    ensures SagaChain(AdmissionRevision0716, db, r) <==> OwnRevisionAdmitted(db, r)
  {
    var saga := db.rows[Key(Commands, r.command)];
    var input := db.rows[Key(TurnInputs, r.replacementInput)];
    assert AdmittedBranch(AdmissionRevision0716, db, r, input, saga.causation.value) <==> OwnRevisionAdmitted(db, r);
  }

  lemma CancelsAlike(db: Db, r: Row)
    requires r.TurnReplacement? && CancelBranch(InputControl0716, db, r)
    ensures CancelBranch(AdmissionRevision0716, db, r)
  {
  }

  /** And one the admission revision accepts was accepted before unless it awaits reconciliation without a cancel pair. */
  lemma NewWithAdmissionRevision(db: Db, prior: Option<Row>, id: Uuid, r: Row)
    requires r.TurnReplacement? && BindingAccepts(AdmissionRevision0716, db, prior, id, r)
    ensures BindingAccepts(InputControl0716, db, prior, id, r)
            <==> !(r.state == "needs_reconciliation" && NoCancelPair(r))
  {
    var saga := db.rows[Key(Commands, r.command)];
    var input := db.rows[Key(TurnInputs, r.replacementInput)];
    EarlyClauses(InputControl0716, AdmissionRevision0716, TurnReplacements, false);
    assert AdmittedBranch(AdmissionRevision0716, db, r, input, saga.causation.value);
    assert AdmittedBranch(InputControl0716, db, r, input, saga.causation.value);
  }

  /* ---- The event trigger ---- */

  /** The frozen rule table the admission revision was written against. */
  predicate RulesBeforeRevision(m: Matrices) {
    && "carry_forward" !in m.events
    && ("control_input" in m.events ==>
          m.events["control_input"].lifecycles <= {"accepted", "applied", "failed", "needs_reconciliation",
                                                   "reconciled", "rejected", "started"}
          && m.events["control_input"].scopes <= {"run", "session"})
  }

  lemma LaterRulesAllowMore(a: EventRevision, b: EventRevision, m: Matrices, kind: string)
    requires a.Rank() <= b.Rank() && (a.Rank() < 2 <= b.Rank() ==> RulesBeforeRevision(m)) && kind in RulesAt(a, m)
    ensures kind in RulesAt(b, m)
    ensures RulesAt(a, m)[kind].lifecycles <= RulesAt(b, m)[kind].lifecycles
    ensures RulesAt(a, m)[kind].scopes <= RulesAt(b, m)[kind].scopes
  {
  }

  lemma LaterEnvelopeAcceptsMore(a: EventRevision, b: EventRevision, m: Matrices, e: Event)
    requires a.Rank() <= b.Rank() && (a.Rank() < 2 <= b.Rank() ==> RulesBeforeRevision(m)) && EnvelopeSection(a, m, e)
    ensures EnvelopeSection(b, m, e)
  {
    LaterRulesAllowMore(a, b, m, e.itemKind.value);
  }

  lemma LaterReferencesAcceptMore(a: EventRevision, b: EventRevision, db: Db, e: Event)
    requires a.Rank() <= b.Rank() && ReferenceSection(a, db, e)
    ensures ReferenceSection(b, db, e)
  {
    NormalizedTextIsExact(e.session);
  }

  lemma LaterLegacyAcceptsMore(a: EventRevision, b: EventRevision, db: Db, e: Event)
    requires a.Rank() <= b.Rank() && LegacySection(a, db, e)
    ensures LegacySection(b, db, e)
  {
    NormalizedTextIsExact(e.session);
  }

  /** Every event accepted at a revision is accepted at every later one. */
  lemma LaterEventAcceptsMore(a: EventRevision, b: EventRevision, m: Matrices, db: Db, prior: Option<Event>, e: Event)
    requires a.Rank() <= b.Rank() && (a.Rank() < 2 <= b.Rank() ==> RulesBeforeRevision(m))
    requires EventAccepts(a, m, db, prior, e)
    ensures EventAccepts(b, m, db, prior, e)
  {
    if !ProjectionOnly(a, prior, e) {
      LaterLegacyAcceptsMore(a, b, db, e);
      if e.schemaVersion == 2 {
        LaterEnvelopeAcceptsMore(a, b, m, e);
        LaterReferencesAcceptMore(a, b, db, e);
      }
    }
  }

  /** The run's parent or child text denotes precisely the event's session, on the side of the event's agent. */
  predicate OwnSession(run: RuntimeTask, e: Event) {
    || (Denotes(run.parentSession, e.session) && run.parentAgent == Some(e.agent))
    || (Denotes(run.childSession, e.session)
        && (run.childAgent == Some(e.agent) || (run.childAgent.None? && run.parentAgent == Some(e.agent))))
  }

  lemma NewLegacyEvent(a: EventRevision, b: EventRevision, db: Db, e: Event)
    requires a.Rank() <= b.Rank() && LegacySection(b, db, e) && !LegacySection(a, db, e)
    ensures e.run.Some? && e.run.value in db.runs && db.runs[e.run.value].tenant == e.tenant
    ensures OwnSession(db.runs[e.run.value], e)
  {
    NormalizedTextIsExact(e.session);
  }

  lemma NewV2Event(a: EventRevision, b: EventRevision, db: Db, e: Event)
    requires 3 <= a.Rank() <= b.Rank() && ReferenceSection(b, db, e) && !ReferenceSection(a, db, e)
    ensures e.run.Some? && e.run.value in db.runs && db.runs[e.run.value].tenant == e.tenant
    ensures OwnSession(db.runs[e.run.value], e)
  {
    NormalizedTextIsExact(e.session);
  }

  /**
   The root-ledger and Peer A2A revisions add exactly the events of a run's own sessions: a newly
   accepted event is bound to a run of its tenant whose parent or child text denotes precisely the
   event's session, on the side whose agent wrote the event.
   */
  lemma NewEventIsOfItsRunsSession(a: EventRevision, b: EventRevision, m: Matrices, db: Db,
                                   prior: Option<Event>, e: Event)
    requires 3 <= a.Rank() <= b.Rank()
    requires EventAccepts(b, m, db, prior, e) && !EventAccepts(a, m, db, prior, e)
    ensures e.run.Some? && e.run.value in db.runs && db.runs[e.run.value].tenant == e.tenant
    ensures OwnSession(db.runs[e.run.value], e)
  {
    if !LegacySection(a, db, e) {
      NewLegacyEvent(a, b, db, e);
    } else {
      NewV2Event(a, b, db, e);
    }
  }
}
