/**
 Quarantine of duplicate active runs before a partial unique index is created: of every group of
 active executable runs with the same agent and session the best one stays.
 */
module RunQuarantine {
  import opened Wrappers

  datatype TaskType = WebChatTurn | GoalContinuation | TeamMember | AdvancedPlan | OtherType(name: string)
  datatype Status = Pending | Running | Suspended | Resumable | NeedsReconciliation | OtherStatus(name: string)

  datatype Json = Object(fields: map<string, Json>) | Array(items: seq<Json>) | Scalar(repr: string)

  datatype Run = Run(
    taskType: TaskType, status: Status, agent: Option<string>, session: Option<string>, created: int,
    summary: Option<string>, metadata: Option<Json>, rest: string)

  /** The runs by id; ids are ordered. */
  type Runs = map<int, Run>

  /** The predicate of the partial index. */
  predicate Active(run: Run) {
    && (run.taskType in {WebChatTurn, GoalContinuation, TeamMember, AdvancedPlan})
    && run.status in {Pending, Running, Suspended, Resumable}
    && run.agent.Some? && run.session.Some?
  }

  predicate ActiveIn(runs: Runs, id: int) {
    id in runs && Active(runs[id])
  }

  predicate SameGroup(a: Run, b: Run) {
    a.agent == b.agent && a.session == b.session
  }

  /* ---- The ranking ---- */

  function StatusRank(status: Status): int {
    match status
    case Running => 0
    case Resumable => 1
    case Suspended => 2
    case _ => 3
  }

  /** ORDER BY the status rank, created_at DESC, id DESC. */
  predicate Before(runs: Runs, a: int, b: int)
    requires a in runs && b in runs
  {
    var x, y := runs[a], runs[b];
    || StatusRank(x.status) < StatusRank(y.status)
    || (StatusRank(x.status) == StatusRank(y.status) && (x.created > y.created || (x.created == y.created && a > b)))
  }

  /** The active runs of the same group that come before this one. */
  function Ahead(runs: Runs, id: int): set<int>
    requires id in runs
  {
    set other | other in runs && Active(runs[other]) && SameGroup(runs[other], runs[id]) && Before(runs, other, id)
  }

  function RowNumber(runs: Runs, id: int): nat
    requires id in runs
  {
    1 + |Ahead(runs, id)|
  }

  function Merged(metadata: Option<Json>, added: map<string, Json>): Json {
    match metadata
    case None => Object(added)
    case Some(Object(fields)) => Object(fields + added)
    case Some(Array(items)) => Array(items + [Object(added)])
    case Some(scalar) => Array([scalar, Object(added)])
  }

  const SUMMARY := "Duplicate active Session Run quarantined by Session V2 permission migration"
  const RECONCILIATION := map[
    "needs_reconciliation" := Scalar("true"),
    "reconciliation_reason" := Scalar("\"duplicate_active_session_run_during_permission_migration\""),
    "recovery_owner" := Scalar("\"session_v2_permission_tool_0716\"")]

  function Quarantined(run: Run): Run {
    run.(status := NeedsReconciliation,
         summary := if run.summary.Some? then run.summary else Some(SUMMARY),
         metadata := Some(Merged(run.metadata, RECONCILIATION)))
  }

  function Quarantine(runs: Runs): Runs {
    map id | id in runs :: if Active(runs[id]) && RowNumber(runs, id) > 1 then Quarantined(runs[id]) else runs[id]
  }

  /** No two rows the partial index covers have the same key. */
  predicate UniqueActive(runs: Runs) {
    forall a, b :: a in runs && b in runs && Active(runs[a]) && Active(runs[b]) && SameGroup(runs[a], runs[b]) ==> a == b
  }

  /** The table the migration changes in place. */
  class RunTable {
    var runs: Runs
    var indexed: bool

    constructor (runs: Runs)
      ensures this.runs == runs && !indexed
    {
      this.runs := runs;
      indexed := false;
    }

    /** CREATE UNIQUE INDEX would raise on a duplicate; after the update there is none. */
    method Upgrade() returns (raised: bool)
      modifies this
      ensures !raised && indexed && runs == Quarantine(old(runs))
      ensures forall a, b :: !Rivals(runs, a, b)
    {
      indexed := false;
      runs := Quarantine(runs);
      IndexHolds(old(runs));
      raised := !UniqueActive(runs);
      indexed := !raised;
    }
  }

  /* ---- Which runs stay ---- */

  /** What the partial unique index covers. */
  predicate Covered(run: Run) {
    && (run.taskType == WebChatTurn || run.taskType == GoalContinuation
        || run.taskType == TeamMember || run.taskType == AdvancedPlan)
    && (run.status == Pending || run.status == Running || run.status == Suspended || run.status == Resumable)
    && run.agent != None && run.session != None
  }

  /** Another active run of the same agent and session. */
  predicate Rivals(runs: Runs, a: int, b: int) {
    && a in runs && b in runs && a != b && Covered(runs[a]) && Covered(runs[b])
    && runs[a].agent == runs[b].agent && runs[a].session == runs[b].session
  }

  /** A running run is kept before a resumable one, that before a suspended one, and that before a pending one. */
  predicate KeptBefore(a: Status, b: Status) {
    || (a == Running && b in {Resumable, Suspended, Pending})
    || (a == Resumable && b in {Suspended, Pending})
    || (a == Suspended && b == Pending)
  }

  /** Of two rivals the one to keep: by status, then the newer, then the one with the higher id. */
  predicate Preferred(runs: Runs, a: int, b: int)
    requires a in runs && b in runs
  {
    || KeptBefore(runs[a].status, runs[b].status)
    || (runs[a].status == runs[b].status
        && (runs[a].created > runs[b].created || (runs[a].created == runs[b].created && a > b)))
  }

  /** The run that is preferred to all its rivals. */
  ghost predicate Best(runs: Runs, id: int) {
    && id in runs && Covered(runs[id])
    && forall other :: Rivals(runs, id, other) ==> Preferred(runs, id, other)
  }

  lemma CoveredExactly(run: Run)
    ensures Covered(run) <==> Active(run)
  {
  }

  /** Of two rivals exactly one is preferred, and it comes before the other in the ranking. */
  lemma PreferenceRanks(runs: Runs, a: int, b: int)
    requires Rivals(runs, a, b)
    ensures Preferred(runs, a, b) <==> Before(runs, a, b)
    ensures Preferred(runs, a, b) <==> !Preferred(runs, b, a)
  {
  }

  lemma AheadExactly(runs: Runs, id: int, other: int)
    requires ActiveIn(runs, id)
    ensures other in Ahead(runs, id) <==> Rivals(runs, id, other) && Preferred(runs, other, id)
  {
    if other != id && ActiveIn(runs, other) && SameGroup(runs[other], runs[id]) { PreferenceRanks(runs, other, id); }
  }

  lemma BestHasNobodyAhead(runs: Runs, id: int)
    requires ActiveIn(runs, id)
    ensures Best(runs, id) <==> RowNumber(runs, id) == 1
  {
    forall other ensures other in Ahead(runs, id) <==> Rivals(runs, id, other) && Preferred(runs, other, id) {
      AheadExactly(runs, id, other);
    }
    forall other | Rivals(runs, id, other) ensures Preferred(runs, id, other) <==> other !in Ahead(runs, id) {
      PreferenceRanks(runs, id, other);
    }
    if Best(runs, id) {
      assert Ahead(runs, id) == {};
    } else {
      var other :| Rivals(runs, id, other) && !Preferred(runs, id, other);
      assert other in Ahead(runs, id);
    }
  }

  /** The active runs afterwards are exactly the best ones before, and they are as they were. */
  lemma SurvivorsAreTheBest(runs: Runs, id: int)
    ensures (id in Quarantine(runs) && Covered(Quarantine(runs)[id])) <==> Best(runs, id)
    ensures Best(runs, id) ==> Quarantine(runs)[id] == runs[id]
  {
    if ActiveIn(runs, id) { BestHasNobodyAhead(runs, id); }
  }

  lemma AheadShrinks(runs: Runs, a: int, b: int)
    requires ActiveIn(runs, b) && a in Ahead(runs, b)
    ensures Ahead(runs, a) < Ahead(runs, b)
  {
    assert a !in Ahead(runs, a);
  }

  /** Every active run is the best of its agent and session, or has a rival that is; so each group keeps one. */
  lemma {:induction false} GroupKeepsOne(runs: Runs, id: int)
    requires id in runs && Covered(runs[id])
    ensures exists best :: Best(runs, best) && (best == id || Rivals(runs, id, best))
    decreases Ahead(runs, id)
  {
    BestHasNobodyAhead(runs, id);
    if Ahead(runs, id) == {} {
      assert Best(runs, id);
    } else {
      var a :| a in Ahead(runs, id);
      AheadShrinks(runs, a, id);
      GroupKeepsOne(runs, a);
    }
  }

  /** And no more than one: no two rivals are left, and the partial unique index can be created. */
  lemma IndexHolds(runs: Runs)
    ensures forall a, b :: !Rivals(Quarantine(runs), a, b)
    ensures UniqueActive(Quarantine(runs))
  {
    var after := Quarantine(runs);
    forall a, b ensures !Rivals(after, a, b) {
      if Rivals(after, a, b) {
        SurvivorsAreTheBest(runs, a);
        SurvivorsAreTheBest(runs, b);
        PreferenceRanks(runs, a, b);
      }
    }
    forall a, b | ActiveIn(after, a) && ActiveIn(after, b) && SameGroup(after[a], after[b]) ensures a == b {
      assert !Rivals(after, a, b);
    }
  }

  /** The three entries a quarantined run's metadata gets. */
  predicate HasReconciliation(fields: map<string, Json>) {
    && "needs_reconciliation" in fields && fields["needs_reconciliation"] == Scalar("true")
    && "reconciliation_reason" in fields
    && fields["reconciliation_reason"] == Scalar("\"duplicate_active_session_run_during_permission_migration\"")
    && "recovery_owner" in fields && fields["recovery_owner"] == Scalar("\"session_v2_permission_tool_0716\"")
  }

  /** The fields, with the three entries and none besides. */
  ghost predicate Reconciling(before: map<string, Json>, after: map<string, Json>) {
    && HasReconciliation(after)
    && forall key :: key !in ["needs_reconciliation", "reconciliation_reason", "recovery_owner"] ==>
         (key in after <==> key in before) && (key in before ==> after[key] == before[key])
  }

  /** How a run records that it was quarantined: status, summary and metadata, and nothing else changes. */
  ghost predicate Recorded(before: Run, after: Run) {
    && after.status == NeedsReconciliation
    && after.summary
       == (if before.summary.Some? then before.summary
           else Some("Duplicate active Session Run quarantined by Session V2 permission migration"))
    && after.metadata.Some?
    && (match before.metadata
        case None => after.metadata.value.Object? && Reconciling(map[], after.metadata.value.fields)
        case Some(Object(fields)) => after.metadata.value.Object? && Reconciling(fields, after.metadata.value.fields)
        case Some(Array(items)) =>
          after.metadata.value.Array? && |after.metadata.value.items| == |items| + 1
          && after.metadata.value.items[..|items|] == items && after.metadata.value.items[|items|].Object?
          && Reconciling(map[], after.metadata.value.items[|items|].fields)
        case Some(Scalar(repr)) =>
          after.metadata.value.Array? && |after.metadata.value.items| == 2
          && after.metadata.value.items[0] == Scalar(repr) && after.metadata.value.items[1].Object?
          && Reconciling(map[], after.metadata.value.items[1].fields))
    && after.taskType == before.taskType && after.agent == before.agent && after.session == before.session
    && after.created == before.created && after.rest == before.rest
  }

  lemma ReconciliationIsAdded(fields: map<string, Json>)
    ensures Reconciling(fields, fields + RECONCILIATION)
  {
    assert "needs_reconciliation" in RECONCILIATION && "reconciliation_reason" in RECONCILIATION
           && "recovery_owner" in RECONCILIATION;
  }

  lemma QuarantinedIsRecorded(run: Run)
    ensures Recorded(run, Quarantined(run))
  {
    ReconciliationIsAdded(map[]);
    assert map[] + RECONCILIATION == RECONCILIATION;
    if run.metadata.Some? && run.metadata.value.Object? { ReconciliationIsAdded(run.metadata.value.fields); }
  }

  /** No run is lost; one that changes was active, not the best of its group, and changes as recorded. */
  lemma OnlyDuplicatesChange(runs: Runs, id: int)
    requires id in runs
    ensures Quarantine(runs).Keys == runs.Keys
    ensures if Covered(runs[id]) && !Best(runs, id) then Recorded(runs[id], Quarantine(runs)[id])
            else Quarantine(runs)[id] == runs[id]
  {
    CoveredExactly(runs[id]);
    QuarantinedIsRecorded(runs[id]);
    if ActiveIn(runs, id) { BestHasNobodyAhead(runs, id); }
  }

  /** It changes nothing exactly when there were no rivals; so a second application changes nothing. */
  lemma NothingToQuarantine(runs: Runs)
    ensures Quarantine(runs) == runs <==> forall a, b :: !Rivals(runs, a, b)
  {
    if forall a, b :: !Rivals(runs, a, b) {
      forall id | id in runs ensures Quarantine(runs)[id] == runs[id] {
        OnlyDuplicatesChange(runs, id);
      }
    } else {
      IndexHolds(runs);
    }
  }

  lemma SecondTimeChangesNothing(runs: Runs)
    ensures Quarantine(Quarantine(runs)) == Quarantine(runs)
  {
    IndexHolds(runs);
    NothingToQuarantine(Quarantine(runs));
  }
}
