/**
 Two properties the triggers do not keep, and exactly which accepted write breaks each: that an
 admission's input belongs to the admission's command, and that a row's item is still some event's.
 */
module AuthorityLimits {
  import opened Wrappers
  import opened SessionTables
  import opened BindingTrigger
  import opened EventTrigger
  import opened AuthorityRuns

  /* ---- Admissions and their inputs ---- */

  /** The admission's input belongs to the admission's command. */
  predicate Paired(db: Db, admission: Uuid) {
    && Key(InputAdmissions, admission) in db.rows
    && var a := db.rows[Key(InputAdmissions, admission)];
    && a.Admission? && Key(TurnInputs, a.input) in db.rows
    && var i := db.rows[Key(TurnInputs, a.input)];
    i.TurnInput? && i.command == a.command
  }

  /** The operation moves the input of the admission to another command. */
  predicate MovesInputOf(db: Db, admission: Uuid, op: Op)
    requires Paired(db, admission)
  {
    var a := db.rows[Key(InputAdmissions, admission)];
    op.UpdateRow? && op.newRow.TurnInput? && op.rowId == a.input && op.newRow.command != a.command
  }

  /** An accepted step ends the pairing of an admission exactly when it moves that admission's input. */
  lemma PairingLostExactly(s: State, op: Op, admission: Uuid)
    requires Accepted(s, op) && Paired(s.db, admission)
    ensures !Paired(Step(s, op).db, admission) <==> MovesInputOf(s.db, admission, op)
  {
    var k := Key(InputAdmissions, admission);
    if op.UpdateRow? && Key(op.newRow.TableOf(), op.rowId) == k {
      assert AdmissionBranch(s.binding, s.db, op.newRow);
    }
  }

  predicate NeverMoved(s: State, ops: seq<Op>, admission: Uuid)
    decreases |ops|
  {
    ops == []
    || ((Accepted(s, ops[0]) && Paired(s.db, admission) ==> !MovesInputOf(s.db, admission, ops[0]))
        && NeverMoved(Step(s, ops[0]), ops[1..], admission))
  }

  /** So over any run that never moves its input an admission stays paired. */
  lemma {:induction false} PairingHoldsOverRuns(s: State, ops: seq<Op>, admission: Uuid)
    requires Paired(s.db, admission) && NeverMoved(s, ops, admission)
    ensures Paired(Run(s, ops).db, admission)
    decreases |ops|
  {
    if ops != [] {
      if Accepted(s, ops[0]) { PairingLostExactly(s, ops[0], admission); }
      PairingHoldsOverRuns(Step(s, ops[0]), ops[1..], admission);
    }
  }

  /** The input, with another command. */
  function Recommanded(i: Row, command: Uuid): Row
    requires i.TurnInput?
  {
    TurnInput(i.tenant, i.session, command, i.intent, i.targetTurn, i.targetRun, i.requestItem, i.forkAfter,
              i.revision)
  }

  /** Such a move is accepted: an input that passes its branch may be moved to any command of its session. */
  lemma InputMayBeMoved(s: State, input: Uuid, command: Uuid)
    requires Key(TurnInputs, input) in s.db.rows
    requires var i := s.db.rows[Key(TurnInputs, input)];
             && i.TurnInput? && TenantBound(s.db, i) && TurnInputBranch(s.binding, s.db, i)
             && InFrame(s.db, Commands, command, i.tenant, i.session)
    ensures var i := s.db.rows[Key(TurnInputs, input)];
            Accepted(s, UpdateRow(input, Recommanded(i, command)))
  {
    var i := s.db.rows[Key(TurnInputs, input)];
    assert TurnInputBranch(s.binding, s.db, Recommanded(i, command));
  }

  /** An update of an admission that keeps its frame, its command and its input. */
  predicate KeepsPair(a: Row, later: Row) {
    a.Admission? && later.Admission? && later.SameFrame(a) && later.command == a.command && later.input == a.input
  }

  /** What the admission branch demands besides the pairing. */
  predicate RevisionAndHook(rev: Revision, db: Db, r: Row)
    requires r.Admission? && Key(TurnInputs, r.input) in db.rows && db.rows[Key(TurnInputs, r.input)].TurnInput?
  {
    && (rev.Rank() >= 2 ==> 0 < r.inputRevision <= db.rows[Key(TurnInputs, r.input)].revision)
    && HookIsEvent(db, r)
  }

  /**
   While its pairing is broken an admission is stuck: in any sound state an update that keeps command and
   input is accepted exactly when the two belong together now, and revision and hook event are right.
   */
  lemma AdmissionUpdateAcceptedExactly(s: State, admission: Uuid, later: Row)
    requires Sound(s.db) && Key(InputAdmissions, admission) in s.db.rows
    requires KeepsPair(s.db.rows[Key(InputAdmissions, admission)], later)
    ensures Accepted(s, UpdateRow(admission, later))
            <==> Paired(s.db, admission) && RevisionAndHook(s.binding, s.db, later)
  {
    var prior := s.db.rows[Key(InputAdmissions, admission)];
    AdmissionFrame(s.db, admission);
    UpdateIsChecked(s, admission, later, prior);
    AdmissionUpdateNeedsBranch(s.binding, s.db, prior, admission, later);
    AdmissionBranchExactly(s.binding, s.db, prior, later);
  }

  lemma UpdateIsChecked(s: State, id: Uuid, r: Row, prior: Row)
    requires Key(r.TableOf(), id) in s.db.rows && prior == s.db.rows[Key(r.TableOf(), id)]
    ensures Accepted(s, UpdateRow(id, r)) <==> BindingAccepts(s.binding, s.db, Some(prior), id, r)
  {
  }

  lemma AdmissionFrame(db: Db, admission: Uuid)
    requires Sound(db) && Key(InputAdmissions, admission) in db.rows
    ensures var a := db.rows[Key(InputAdmissions, admission)];
            && a.Admission? && TenantBound(db, a)
            && InFrame(db, Commands, a.command, a.tenant, a.session)
            && InFrame(db, TurnInputs, a.input, a.tenant, a.session)
  {
    assert RowSound(db, Key(InputAdmissions, admission));
  }

  lemma AdmissionUpdateNeedsBranch(rev: Revision, db: Db, prior: Row, id: Uuid, later: Row)
    requires TenantBound(db, prior) && KeepsPair(prior, later)
    ensures BindingAccepts(rev, db, Some(prior), id, later) <==> AdmissionBranch(rev, db, later)
  {
  }

  lemma AdmissionBranchExactly(rev: Revision, db: Db, prior: Row, later: Row)
    requires KeepsPair(prior, later) && InFrame(db, Commands, prior.command, prior.tenant, prior.session)
    requires InFrame(db, TurnInputs, prior.input, prior.tenant, prior.session)
    ensures var input := db.rows[Key(TurnInputs, prior.input)];
            && input.TurnInput?
            && (AdmissionBranch(rev, db, later) <==> input.command == prior.command && RevisionAndHook(rev, db, later))
  {
  }

  /** The state with the input moved. */
  function Moved(s: State, input: Uuid, command: Uuid): State
    requires Key(TurnInputs, input) in s.db.rows && s.db.rows[Key(TurnInputs, input)].TurnInput?
  {
    var k := Key(TurnInputs, input);
    s.(db := s.db.(rows := s.db.rows[k := Recommanded(s.db.rows[k], command)]))
  }

  lemma MovingIsAStep(s: State, input: Uuid, command: Uuid)
    requires Key(TurnInputs, input) in s.db.rows && s.db.rows[Key(TurnInputs, input)].TurnInput?
    requires Accepted(s, UpdateRow(input, Recommanded(s.db.rows[Key(TurnInputs, input)], command)))
    ensures Step(s, UpdateRow(input, Recommanded(s.db.rows[Key(TurnInputs, input)], command))) == Moved(s, input, command)
  {
  }

  lemma MovingBackAndForth(s: State, input: Uuid, command: Uuid)
    requires Key(TurnInputs, input) in s.db.rows && s.db.rows[Key(TurnInputs, input)].TurnInput?
    ensures var i := s.db.rows[Key(TurnInputs, input)];
            Moved(Moved(s, input, command), input, i.command) == s
  {
    var k := Key(TurnInputs, input);
    var i := s.db.rows[k];
    assert Recommanded(Recommanded(i, command), i.command) == i;
    assert s.db.rows[k := Recommanded(i, command)][k := i] == s.db.rows;
  }

  lemma InputPassesAfterMove(s: State, input: Uuid, command: Uuid, other: Uuid)
    requires Key(TurnInputs, input) in s.db.rows
    requires var i := s.db.rows[Key(TurnInputs, input)];
             && i.TurnInput? && TenantBound(s.db, i) && TurnInputBranch(s.binding, s.db, i)
             && InFrame(s.db, Commands, command, i.tenant, i.session) && InFrame(s.db, Commands, other, i.tenant, i.session)
    ensures var t := Moved(s, input, command);
            var i := t.db.rows[Key(TurnInputs, input)];
            && TenantBound(t.db, i) && TurnInputBranch(t.binding, t.db, i)
            && InFrame(t.db, Commands, other, i.tenant, i.session)
  {
  }

  /** Moving the input back repairs it: both moves are accepted, and together they change nothing. */
  lemma MovedInputComesBack(s: State, input: Uuid, command: Uuid)
    requires Key(TurnInputs, input) in s.db.rows
    requires var i := s.db.rows[Key(TurnInputs, input)];
             && i.TurnInput? && TenantBound(s.db, i) && TurnInputBranch(s.binding, s.db, i)
             && InFrame(s.db, Commands, command, i.tenant, i.session)
    ensures var i := s.db.rows[Key(TurnInputs, input)];
            Run(s, [UpdateRow(input, Recommanded(i, command)), UpdateRow(input, i)]) == s
    ensures var i := s.db.rows[Key(TurnInputs, input)];
            && Accepted(s, UpdateRow(input, Recommanded(i, command)))
            && Accepted(Moved(s, input, command), UpdateRow(input, i))
  {
    var i := s.db.rows[Key(TurnInputs, input)];
    var t := Moved(s, input, command);
    InputMayBeMoved(s, input, command);
    MovingIsAStep(s, input, command);
    InputPassesAfterMove(s, input, command, i.command);
    InputMayBeMoved(t, input, i.command);
    MovingIsAStep(t, input, i.command);
    MovingBackAndForth(s, input, command);
    var there, back := UpdateRow(input, Recommanded(i, command)), UpdateRow(input, i);
    TwoSteps(s, there, back);
  }

  lemma TwoSteps(s: State, a: Op, b: Op)
    ensures Run(s, [a, b]) == Step(Step(s, a), b)
  {
    assert [a, b][1..] == [b] && [b][1..] == [];
    assert Run(Step(s, a), [b]) == Run(Step(Step(s, a), b), []);
  }

  /* ---- Rows and the items of events ---- */

  /** The item is one of those the row refers to. */
  predicate NamesItem(r: Row, item: Uuid) {
    match r
    case TurnInput(_, _, _, _, _, _, requestItem, _, _) => requestItem == Some(item)
    case Admission(_, _, _, _, _, _, hookItem, _) => hookItem == Some(item)
    case ControlInput(_, _, _, _, _, requestItem) => requestItem == Some(item)
    case FeedbackAggregate(_, _, targetItem, _, mutation) => targetItem == item || mutation == item
    case _ => false
  }

  /** Another event of the session carries the item too. */
  predicate CarriedElsewhere(db: Db, event: Uuid, item: Uuid)
    requires event in db.events
  {
    exists id ::
      id in db.events && id != event && db.events[id].item == Some(item)
      && EventInFrame(db, id, db.events[event].tenant, db.events[event].session)
  }

  /** The event would give up an item that a row of its session names and that no other event of it carries. */
  predicate Abandons(db: Db, event: Uuid, newItem: Option<Uuid>)
    requires event in db.events
  {
    var e := db.events[event];
    && e.item.Some? && newItem != e.item && !CarriedElsewhere(db, event, e.item.value)
    && exists k :: k in db.rows && NamesItem(db.rows[k], e.item.value)
                   && db.rows[k].tenant == e.tenant && db.rows[k].session == e.session
  }

  /** Items are found as before unless the written event abandons them. */
  lemma ItemStays(a: Db, b: Db, event: Uuid, e: Event, item: Uuid, tenant: Uuid, session: Uuid)
    requires event in a.events && b.events == a.events[event := e]
    requires e.tenant == a.events[event].tenant && e.session == a.events[event].session
    requires ItemInFrame(a, item, tenant, session)
    ensures ItemInFrame(b, item, tenant, session)
            <==> !(a.events[event].item == Some(item) && e.item != Some(item)
                   && EventInFrame(a, event, tenant, session) && !CarriedElsewhere(a, event, item))
  {
    var id :| id in a.events && a.events[id].item == Some(item) && EventInFrame(a, id, tenant, session);
    if id != event || e.item == Some(item) {
      assert id in b.events && b.events[id].item == Some(item) && EventInFrame(b, id, tenant, session);
    }
    if EventInFrame(a, event, tenant, session) && CarriedElsewhere(a, event, item) {
      var other :| other in a.events && other != event && a.events[other].item == Some(item)
        && EventInFrame(a, other, a.events[event].tenant, a.events[event].session);
      assert other in b.events && b.events[other].item == Some(item) && EventInFrame(b, other, tenant, session);
    }
  }

  /** The item is found from the row's session before the write and not after it. */
  predicate Loses(a: Db, event: Uuid, e: Event, r: Row, item: Uuid)
    requires event in a.events
  {
    && a.events[event].item == Some(item) && e.item != Some(item)
    && EventInFrame(a, event, r.tenant, r.session) && !CarriedElsewhere(a, event, item)
  }

  lemma InputReferencesAfterItemMove(a: Db, b: Db, event: Uuid, e: Event, r: Row)
    requires event in a.events && b == a.(events := a.events[event := e])
    requires e.tenant == a.events[event].tenant && e.session == a.events[event].session
    requires References(a, r) && (r.TurnInput? || r.ControlInput?)
    ensures References(b, r) <==> !(exists item :: NamesItem(r, item) && Loses(a, event, e, r, item))
  {
    if r.requestItem.Some? {
      assert NamesItem(r, r.requestItem.value);
      ItemStays(a, b, event, e, r.requestItem.value, r.tenant, r.session);
    }
  }

  lemma OtherReferencesAfterItemMove(a: Db, b: Db, event: Uuid, e: Event, r: Row)
    requires event in a.events && b == a.(events := a.events[event := e])
    requires e.tenant == a.events[event].tenant && e.session == a.events[event].session
    requires References(a, r) && (r.Admission? || r.FeedbackAggregate?)
    ensures References(b, r) <==> !(exists item :: NamesItem(r, item) && Loses(a, event, e, r, item))
  {
    if r.Admission? {
      if r.hookItem.Some? {
        assert NamesItem(r, r.hookItem.value);
        ItemStays(a, b, event, e, r.hookItem.value, r.tenant, r.session);
      }
    } else {
      assert NamesItem(r, r.targetItem) && NamesItem(r, r.lastMutationItem);
      ItemStays(a, b, event, e, r.targetItem, r.tenant, r.session);
      ItemStays(a, b, event, e, r.lastMutationItem, r.tenant, r.session);
    }
  }

  lemma ItemlessReferencesStay(a: Db, b: Db, event: Uuid, e: Event, r: Row)
    requires event in a.events && b == a.(events := a.events[event := e])
    requires e.tenant == a.events[event].tenant && e.session == a.events[event].session
    requires References(a, r) && !r.TurnInput? && !r.ControlInput? && !r.Admission? && !r.FeedbackAggregate?
    ensures References(b, r)
  {
  }

  /** A row's references still resolve after the write exactly if no item it names is lost. */
  lemma ReferencesAfterItemMove(a: Db, b: Db, event: Uuid, e: Event, r: Row)
    requires event in a.events && b == a.(events := a.events[event := e])
    requires e.tenant == a.events[event].tenant && e.session == a.events[event].session
    requires References(a, r)
    ensures References(b, r) <==> !(exists item :: NamesItem(r, item) && Loses(a, event, e, r, item))
  {
    if r.TurnInput? || r.ControlInput? {
      InputReferencesAfterItemMove(a, b, event, e, r);
    } else if r.Admission? || r.FeedbackAggregate? {
      OtherReferencesAfterItemMove(a, b, event, e, r);
    } else {
      ItemlessReferencesStay(a, b, event, e, r);
    }
  }

  lemma EventWriteKeepsEvents(s: State, event: Uuid, e: Event)
    requires Sound(s.db) && event in s.db.events && Accepted(s, UpdateEvent(event, e))
    requires var prior := s.db.events[event]; e.tenant == prior.tenant && e.session == prior.session && e.agent == prior.agent
    ensures var b := s.db.(events := s.db.events[event := e]);
            Step(s, UpdateEvent(event, e)).db == b && forall id :: id in b.events ==> EventSound(b, id)
  {
    var op := UpdateEvent(event, e);
    var b := Step(s, op).db;
    forall id | id in b.events ensures EventSound(b, id) {
      EventSoundBefore(s, op, id, b.events[id]);
      SameEventReferences(s.db, b, b.events[id]);
    }
  }

  lemma LossIsAbandoning(db: Db, event: Uuid, e: Event, k: Key, item: Uuid)
    requires event in db.events && k in db.rows
    requires NamesItem(db.rows[k], item) && Loses(db, event, e, db.rows[k], item)
    ensures Abandons(db, event, e.item)
  {
  }

  lemma SameEventReferences(a: Db, b: Db, e: Event)
    requires b.sessions == a.sessions && b.runs == a.runs && b.rows == a.rows
    ensures EventReferences(a, e) == EventReferences(b, e) && EventBound(a, e) == EventBound(b, e)
  {
  }

  /**
   An accepted write of an event that stays in its session, whatever it changes, keeps every reference
   of every row and event resolved exactly when it does not abandon an item that is still named.
   */
  lemma EventWriteKeepsSoundExactly(s: State, event: Uuid, e: Event)
    requires Sound(s.db) && event in s.db.events && Accepted(s, UpdateEvent(event, e))
    requires var prior := s.db.events[event]; e.tenant == prior.tenant && e.session == prior.session && e.agent == prior.agent
    ensures Sound(Step(s, UpdateEvent(event, e)).db) <==> !Abandons(s.db, event, e.item)
  {
    var b := s.db.(events := s.db.events[event := e]);
    EventWriteKeepsEvents(s, event, e);
    forall k | k in s.db.rows
      ensures RowSound(b, k) <==> !(exists item :: NamesItem(s.db.rows[k], item) && Loses(s.db, event, e, s.db.rows[k], item))
    {
      assert RowSound(s.db, k);
      ReferencesAfterItemMove(s.db, b, event, e, s.db.rows[k]);
    }
    if Abandons(s.db, event, e.item) {
      var item := s.db.events[event].item.value;
      var k :| k in s.db.rows && NamesItem(s.db.rows[k], item)
        && s.db.rows[k].tenant == s.db.events[event].tenant && s.db.rows[k].session == s.db.events[event].session;
      assert Loses(s.db, event, e, s.db.rows[k], item);
      assert !RowSound(b, k);
    } else {
      forall k | k in b.rows ensures RowSound(b, k) {
        forall item ensures !(NamesItem(s.db.rows[k], item) && Loses(s.db, event, e, s.db.rows[k], item)) {
          if NamesItem(s.db.rows[k], item) && Loses(s.db, event, e, s.db.rows[k], item) {
            LossIsAbandoning(s.db, event, e, k, item);
          }
        }
      }
    }
  }

  /** Identity columns are written once, except that an event may give up an item unless it abandons it. */
  predicate NothingAbandoned(s: State, op: Op) {
    match op
    case UpdateEvent(id, e) =>
      id in s.db.events ==>
        var prior := s.db.events[id];
        && e.tenant == prior.tenant && e.session == prior.session && e.agent == prior.agent
        && !Abandons(s.db, id, e.item)
    case _ => IdentityKept(s, op)
  }

  predicate NothingAbandonedRun(s: State, ops: seq<Op>)
    decreases |ops|
  {
    ops == [] || (NothingAbandoned(s, ops[0]) && NothingAbandonedRun(Step(s, ops[0]), ops[1..]))
  }

  lemma StepKeepsSoundUnlessAbandoned(s: State, op: Op)
    requires Sound(s.db) && NothingAbandoned(s, op)
    ensures Sound(Step(s, op).db)
  {
    if op.UpdateEvent? {
      if Accepted(s, op) { EventWriteKeepsSoundExactly(s, op.eventId, op.newEvent); }
    } else {
      StepKeepsSound(s, op);
    }
  }

  /** So references stay inside their session over any run in which no named item is abandoned. */
  lemma {:induction false} RunsKeepFramesUnlessAbandoned(s: State, ops: seq<Op>)
    requires Sound(s.db) && NothingAbandonedRun(s, ops)
    ensures Sound(Run(s, ops).db)
    decreases |ops|
  {
    if ops != [] {
      StepKeepsSoundUnlessAbandoned(s, ops[0]);
      RunsKeepFramesUnlessAbandoned(Step(s, ops[0]), ops[1..]);
    }
  }
}
