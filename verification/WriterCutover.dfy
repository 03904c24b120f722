/**
 Cutover and fencing of writer generations over whole runs. Both results need the event trigger,
 the immutable `writer_generation` and the projection-only path together.
 */
module WriterCutover {
  import opened Wrappers
  import opened SessionTables
  import opened EventTrigger
  import opened AuthorityRuns

  /** Enforcement is on in every state the run visits; state and generations of the epoch may change. */
  predicate EnforcedThroughout(s: State, ops: seq<Op>)
    decreases |ops|
  {
    Enforcing(s.db) && (ops == [] || EnforcedThroughout(Step(s, ops[0]), ops[1..]))
  }

  /** The event, if bound to a run, has schema 2 exactly for generation 2, and otherwise generation 1. */
  predicate SchemaMatchesRun(db: Db, e: Event) {
    e.run.Some? ==>
      e.run.value in db.runs
      && (if e.schemaVersion == 2 then db.runs[e.run.value].writerGeneration == 2
          else db.runs[e.run.value].writerGeneration == 1)
  }

  ghost predicate AllMatch(db: Db, ids: set<Uuid>) {
    forall id :: id in ids ==> id in db.events && SchemaMatchesRun(db, db.events[id])
  }

  /** The event whose canonical content the operation writes, if it is accepted. */
  function WrittenBy(s: State, op: Op): set<Uuid> {
    if !Accepted(s, op) then {}
    else match op
      case InsertEvent(id, _) => {id}
      case UpdateEvent(id, e) => if ProjectionOnly(s.event, Some(s.db.events[id]), e) then {} else {id}
      case _ => {}
  }

  /** All events whose canonical content the run writes. */
  function Written(s: State, ops: seq<Op>): set<Uuid>
    decreases |ops|
  {
    if ops == [] then {} else WrittenBy(s, ops[0]) + Written(Step(s, ops[0]), ops[1..])
  }

  lemma GenerationKept(s: State, op: Op, run: Uuid)
    requires Enforcing(s.db) && run in s.db.runs
    ensures run in Step(s, op).db.runs
    ensures Step(s, op).db.runs[run].writerGeneration == s.db.runs[run].writerGeneration
  {
  }

  lemma StepKeepsMatch(s: State, op: Op, ids: set<Uuid>)
    requires Enforcing(s.db) && AllMatch(s.db, ids)
    ensures AllMatch(Step(s, op).db, ids + WrittenBy(s, op))
  {
    var b := Step(s, op).db;
    forall id | id in ids + WrittenBy(s, op)
      ensures id in b.events && SchemaMatchesRun(b, b.events[id])
    {
      if id in WrittenBy(s, op) {
        assert EpochSection(s.db, b.events[id]);
      } else {
        var e := s.db.events[id];
        if e.run.Some? { GenerationKept(s, op, e.run.value); }
        if b.events[id] != e {
          assert ProjectionOnly(s.event, Some(e), b.events[id]);
          assert Canonical(b.events[id]).run == e.run && Canonical(b.events[id]).schemaVersion == e.schemaVersion;
        }
      }
    }
  }

  /**
   While enforcement stays on, every event that matched its run and every event written since
   matches its run: schema 2 exactly for generation 2, otherwise generation 1.
   */
  lemma {:induction false} SchemaFollowsGeneration(s: State, ops: seq<Op>, ids: set<Uuid>)
    requires EnforcedThroughout(s, ops) && AllMatch(s.db, ids)
    ensures AllMatch(Run(s, ops).db, ids + Written(s, ops))
    decreases |ops|
  {
    if ops == [] {
      assert ids + Written(s, ops) == ids;
    } else {
      StepKeepsMatch(s, ops[0], ids);
      var written := WrittenBy(s, ops[0]);
      SchemaFollowsGeneration(Step(s, ops[0]), ops[1..], ids + written);
      assert ids + Written(s, ops) == (ids + written) + Written(Step(s, ops[0]), ops[1..]);
    }
  }

  /** No run mixes event schemas: two events written under enforcement for one run agree. */
  lemma NoRunMixesSchemas(s: State, ops: seq<Op>, x: Uuid, y: Uuid)
    requires EnforcedThroughout(s, ops)
    requires x in Written(s, ops) && y in Written(s, ops)
    ensures var db := Run(s, ops).db;
            x in db.events && y in db.events
            && (db.events[x].run.Some? && db.events[x].run == db.events[y].run ==>
                  (db.events[x].schemaVersion == 2 <==> db.events[y].schemaVersion == 2))
  {
    SchemaFollowsGeneration(s, ops, {});
  }

  /* ---- Fencing ---- */

  predicate Fenced(s: State, g: int) {
    Enforcing(s.db) && g !in s.db.epoch.value.allowed
  }

  predicate FencedThroughout(s: State, ops: seq<Op>, g: int)
    decreases |ops|
  {
    Fenced(s, g) && (ops == [] || FencedThroughout(Step(s, ops[0]), ops[1..], g))
  }

  predicate OfGeneration(db: Db, run: Uuid, g: int) {
    run in db.runs && db.runs[run].writerGeneration == g
  }

  predicate BoundTo(db: Db, event: Uuid, g: int) {
    event in db.events && db.events[event].run.Some? && OfGeneration(db, db.events[event].run.value, g)
  }

  /** Only the projection side-car of an event moved, and only forward. */
  predicate ProjectionAdvanced(e: Event, f: Event) {
    && Canonical(f) == Canonical(e)
    && f.projectionAttempts >= e.projectionAttempts
    && (e.projectionStatus == "projected" ==> f.projectionStatus == "projected")
  }

  /** What a fence of generation `g` guarantees between an earlier and a later state. */
  ghost predicate FenceHolds(a: Db, b: Db, g: int) {
    && (forall run :: run in a.runs ==> run in b.runs)
    && (forall run :: OfGeneration(b, run, g) <==> OfGeneration(a, run, g))
    && (forall run :: OfGeneration(a, run, g) ==> b.runs[run] == a.runs[run])
    && (forall id :: BoundTo(b, id, g) ==> BoundTo(a, id, g) && ProjectionAdvanced(a.events[id], b.events[id]))
  }

  lemma FenceComposes(a: Db, b: Db, c: Db, g: int)
    requires FenceHolds(a, b, g) && FenceHolds(b, c, g)
    ensures FenceHolds(a, c, g)
  {
    forall id | BoundTo(c, id, g)
      ensures BoundTo(a, id, g) && ProjectionAdvanced(a.events[id], c.events[id])
    {
      assert BoundTo(b, id, g);
    }
  }

  lemma StepKeepsEventFence(s: State, op: Op, g: int, id: Uuid)
    requires Fenced(s, g) && BoundTo(Step(s, op).db, id, g)
    requires OfGeneration(s.db, Step(s, op).db.events[id].run.value, g)
    ensures BoundTo(s.db, id, g) && ProjectionAdvanced(s.db.events[id], Step(s, op).db.events[id])
  {
    var b := Step(s, op).db;
    if !(id in s.db.events && b.events[id] == s.db.events[id]) {
      assert !EpochSection(s.db, b.events[id]);
      assert ProjectionOnly(s.event, Some(s.db.events[id]), b.events[id]);
      assert Canonical(b.events[id]).run == s.db.events[id].run;
    }
  }

  lemma StepKeepsRunFence(s: State, op: Op, g: int, run: Uuid)
    requires Fenced(s, g)
    ensures OfGeneration(Step(s, op).db, run, g) <==> OfGeneration(s.db, run, g)
    ensures run in s.db.runs ==> run in Step(s, op).db.runs
    ensures OfGeneration(s.db, run, g) ==> Step(s, op).db.runs[run] == s.db.runs[run]
  {
    if run in s.db.runs { GenerationKept(s, op, run); }
  }

  lemma StepKeepsFence(s: State, op: Op, g: int)
    requires Fenced(s, g)
    ensures FenceHolds(s.db, Step(s, op).db, g)
  {
    var b := Step(s, op).db;
    forall run
      ensures OfGeneration(b, run, g) <==> OfGeneration(s.db, run, g)
      ensures run in s.db.runs ==> run in b.runs
      ensures OfGeneration(s.db, run, g) ==> b.runs[run] == s.db.runs[run]
    {
      StepKeepsRunFence(s, op, g, run);
    }
    forall id | BoundTo(b, id, g)
      ensures BoundTo(s.db, id, g) && ProjectionAdvanced(s.db.events[id], b.events[id])
    {
      assert OfGeneration(b, b.events[id].run.value, g);
      StepKeepsEventFence(s, op, g, id);
    }
  }

  /**
   From the moment generation `g` leaves the allowed set under enforcement, and for as long as it
   stays out: no run of `g` is inserted or changed, no new canonical content becomes bound to one,
   and the projection of what is bound only moves forward.
   */
  lemma {:induction false} FenceHoldsOverRuns(s: State, ops: seq<Op>, g: int)
    requires FencedThroughout(s, ops, g)
    ensures FenceHolds(s.db, Run(s, ops).db, g)
    decreases |ops|
  {
    if ops != [] {
      StepKeepsFence(s, ops[0], g);
      FenceHoldsOverRuns(Step(s, ops[0]), ops[1..], g);
      FenceComposes(s.db, Step(s, ops[0]).db, Run(s, ops).db, g);
    }
  }

  /** The fence still lets a drained generation finish its projection: such an update is accepted. */
  lemma FencedProjectionIsAccepted(s: State, id: Uuid, e: Event, g: int)
    requires Fenced(s, g) && BoundTo(s.db, id, g) && s.event.Rank() >= 3
    requires EventBound(s.db, s.db.events[id])
    requires ProjectionAdvanced(s.db.events[id], e)
    requires e.projectionStatus in {"pending", "projecting", "projected", "failed", "not_requested"}
    ensures Step(s, UpdateEvent(id, e)).db.events[id] == e
  {
    assert Canonical(e).session == s.db.events[id].session && Canonical(e).tenant == s.db.events[id].tenant
        && Canonical(e).agent == s.db.events[id].agent;
  }

  /* ---- New runs ---- */

  /** A run that is new after a step under enforcement has the generation for new runs, and that is allowed. */
  lemma NewRunIsOfItsGeneration(s: State, op: Op, run: Uuid)
    requires Enforcing(s.db) && run !in s.db.runs && run in Step(s, op).db.runs
    ensures Step(s, op).db.runs[run].writerGeneration == s.db.epoch.value.newRunGeneration
    ensures s.db.epoch.value.newRunGeneration in s.db.epoch.value.allowed
  {
  }

  /** Enforcement stays on, and the generation for new runs stays `g`; state and allowed generations may change. */
  predicate NewRunsThroughout(s: State, ops: seq<Op>, g: int)
    decreases |ops|
  {
    && Enforcing(s.db) && s.db.epoch.value.newRunGeneration == g
    && (ops == [] || NewRunsThroughout(Step(s, ops[0]), ops[1..], g))
  }

  /** The runs of generations other than `g` are among those of the earlier state, each of its old generation. */
  ghost predicate NoneAdded(a: Db, b: Db, g: int) {
    && (forall run :: run in a.runs ==> run in b.runs && b.runs[run].writerGeneration == a.runs[run].writerGeneration)
    && (forall run :: run in b.runs && run !in a.runs ==> b.runs[run].writerGeneration == g)
  }

  lemma StepAddsNone(s: State, op: Op, g: int)
    requires Enforcing(s.db) && s.db.epoch.value.newRunGeneration == g
    ensures NoneAdded(s.db, Step(s, op).db, g)
  {
    forall run | run in s.db.runs
      ensures run in Step(s, op).db.runs
      ensures Step(s, op).db.runs[run].writerGeneration == s.db.runs[run].writerGeneration
    {
      GenerationKept(s, op, run);
    }
    forall run | run in Step(s, op).db.runs && run !in s.db.runs
      ensures Step(s, op).db.runs[run].writerGeneration == g
    {
      NewRunIsOfItsGeneration(s, op, run);
    }
  }

  /**
   So while new runs are of generation `g`, in particular while an older generation drains, no run of any
   other generation comes into being and none changes its generation.
   */
  lemma {:induction false} DrainingAddsNoRun(s: State, ops: seq<Op>, g: int)
    requires NewRunsThroughout(s, ops, g)
    ensures NoneAdded(s.db, Run(s, ops).db, g)
    decreases |ops|
  {
    if ops != [] {
      StepAddsNone(s, ops[0], g);
      DrainingAddsNoRun(Step(s, ops[0]), ops[1..], g);
    }
  }
}
