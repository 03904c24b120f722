/**
 After-commit callbacks over a tree of savepoints: one flat list of callbacks tagged with the
 transaction they were scheduled in, and a walk along parent transactions when a savepoint is
 rolled back. The session refines two references: a stack of scopes, and the plain history.
 */
module AfterCommit {
  import opened Wrappers

  /** A session transaction; a savepoint has a parent. Numbers are handed out once, so equality is identity. */
  datatype Transaction = Transaction(number: nat, parent: Option<Transaction>)

  type Callback = int

  datatype Entry = Entry(transaction: Transaction, description: string, callback: Callback)

  /** `t` is `scope` or was opened, directly or not, inside it. */
  predicate Inside(t: Transaction, scope: Transaction) {
    t == scope || (t.parent.Some? && Inside(t.parent.value, scope))
  }

  /** The transaction and everything enclosing it, outermost first. */
  function Scopes(t: Option<Transaction>): seq<Transaction> {
    if t.None? then [] else Scopes(t.value.parent) + [t.value]
  }

  /** The entries that do not belong to `scope`, in order. */
  function Kept(entries: seq<Entry>, scope: Transaction): seq<Entry> {
    if entries == [] then []
    else (if Inside(entries[0].transaction, scope) then [] else [entries[0]]) + Kept(entries[1..], scope)
  }

  lemma KeptStep(entries: seq<Entry>, i: nat, scope: Transaction, kept: seq<Entry>)
    requires i < |entries|
    ensures kept + Kept(entries[i..], scope)
         == (if Inside(entries[i].transaction, scope) then kept else kept + [entries[i]]) + Kept(entries[i + 1..], scope)
  {
    var rest := Kept(entries[i + 1..], scope);
    assert entries[i..][1..] == entries[i + 1..];
    assert kept + ([entries[i]] + rest) == (kept + [entries[i]]) + rest;
    assert [] + rest == rest;
  }

  function Callbacks(entries: seq<Entry>): seq<Callback> {
    seq(|entries|, i requires 0 <= i < |entries| => entries[i].callback)
  }

  /* ---- Operations on a session ---- */

  datatype Op =
    | Begin
    | Savepoint
    | Schedule(description: string, callback: Callback)
    | Release
    | RollbackTo(scope: Transaction)
    | Commit(loopRunning: bool)
    | Rollback

  /** `open` is the innermost open transaction. */
  datatype State = State(open: Option<Transaction>, next: nat, entries: seq<Entry>, dispatched: seq<Callback>)

  predicate IsOpenSavepoint(open: Option<Transaction>, scope: Transaction) {
    open.Some? && Inside(open.value, scope) && scope.parent.Some?
  }

  function Step(s: State, op: Op): State {
    match op
    case Begin =>
      if s.open.Some? then s else s.(open := Some(Transaction(s.next, None)), next := s.next + 1)
    case Savepoint =>
      if s.open.None? then s else s.(open := Some(Transaction(s.next, s.open)), next := s.next + 1)
    case Schedule(description, callback) =>
      if s.open.None? then s
      else s.(entries := s.entries + [Entry(s.open.value, description, callback)])
    case Release =>
      if s.open.None? || s.open.value.parent.None? then s else s.(open := s.open.value.parent)
    case RollbackTo(scope) =>
      if !IsOpenSavepoint(s.open, scope) then s
      else s.(open := scope.parent, entries := Kept(s.entries, scope))
    case Commit(loopRunning) =>
      s.(open := None, entries := [],
         dispatched := if loopRunning then s.dispatched + Callbacks(s.entries) else s.dispatched)
    case Rollback =>
      if s.open.None? then s else s.(open := None, entries := [])
  }

  function Run(s: State, ops: seq<Op>): State {
    if ops == [] then s else Step(Run(s, ops[..|ops| - 1]), ops[|ops| - 1])
  }

  /* ---- The session ---- */

  class SyncSession {
    var open: Option<Transaction>
    var next: nat
    var info: Option<seq<Entry>>  // the session-info key; absent is None
    var dispatched: seq<Callback> // tasks handed to the running loop

    function Model(): State
      reads this
    {
      State(open, next, if info.Some? then info.value else [], dispatched)
    }

    constructor ()
      ensures Model() == State(None, 0, [], [])
    {
      open, next, info, dispatched := None, 0, None, [];
    }

    method BeginTransaction()
      modifies this
      ensures Model() == Step(old(Model()), Begin)
    {
      if open.None? {
        open, next := Some(Transaction(next, None)), next + 1;
      }
    }

    method BeginNested()
      modifies this
      ensures Model() == Step(old(Model()), Savepoint)
    {
      if open.Some? {
        open, next := Some(Transaction(next, open)), next + 1;
      }
    }

    method ScheduleAfterCommit(callback: Callback, description: string) returns (scheduled: bool)
      modifies this
      ensures scheduled <==> old(open).Some?
      ensures Model() == Step(old(Model()), Schedule(description, callback))
    {
      if open.None? {
        return false;
      }
      var callbacks := if info.Some? then info.value else [];
      info := Some(callbacks + [Entry(open.value, description, callback)]);
      return true;
    }

    /** The handler of `after_commit`, which also fires for RELEASE SAVEPOINT. */
    method DispatchAfterOuterCommit(loopRunning: bool)
      modifies this
      ensures unchanged(`open) && unchanged(`next)
      ensures open.Some? && open.value.parent.Some? ==> unchanged(this)
      ensures !(open.Some? && open.value.parent.Some?) ==>
                var entries := old(Model()).entries;
                info == None
                && dispatched == old(dispatched) + (if loopRunning then Callbacks(entries) else [])
    {
      if open.Some? && open.value.parent.Some? {
        return;
      }
      var callbacks := if info.Some? then info.value else [];
      info := None;
      if callbacks == [] || !loopRunning {
        return;
      }
      var i := 0;
      while i < |callbacks|
        invariant 0 <= i <= |callbacks|
        invariant unchanged(`open) && unchanged(`next) && info == None
        invariant dispatched == old(dispatched) + Callbacks(callbacks)[..i]
      {
        dispatched := dispatched + [callbacks[i].callback];
        i := i + 1;
      }
    }

    /** The walk along `parent` that decides whether an entry belongs to a rolled-back savepoint. */
    method BelongsToRolledBackSavepoint(transaction: Transaction, previous: Transaction) returns (belongs: bool)
      ensures belongs <==> Inside(transaction, previous)
    {
      var current := Some(transaction);
      while current.Some?
        invariant Inside(transaction, previous) <==> (current.Some? && Inside(current.value, previous))
        decreases current
      {
        if current.value == previous {
          return true;
        }
        current := current.value.parent;
      }
      return false;
    }

    method KeptEntries(callbacks: seq<Entry>, previous: Transaction) returns (kept: seq<Entry>)
      ensures kept == Kept(callbacks, previous)
    {
      kept := [];
      var i := 0;
      while i < |callbacks|
        invariant 0 <= i <= |callbacks|
        invariant kept + Kept(callbacks[i..], previous) == Kept(callbacks, previous)
      {
        var belongs := BelongsToRolledBackSavepoint(callbacks[i].transaction, previous);
        KeptStep(callbacks, i, previous, kept);
        if !belongs {
          kept := kept + [callbacks[i]];
        }
        i := i + 1;
      }
    }

    /** The handler of `after_soft_rollback`. */
    method DiscardAfterOuterRollback(previous: Transaction)
      modifies this
      ensures unchanged(`open) && unchanged(`next) && unchanged(`dispatched)
      ensures Model().entries == if previous.parent.None? then [] else Kept(old(Model()).entries, previous)
    {
      if previous.parent.None? {
        info := None;
        return;
      }
      var kept := KeptEntries(if info.Some? then info.value else [], previous);
      info := Some(kept);
    }

    /** RELEASE of the innermost savepoint. */
    method ReleaseSavepoint(loopRunning: bool)
      modifies this
      ensures Model() == Step(old(Model()), Release)
    {
      if open.Some? && open.value.parent.Some? {
        DispatchAfterOuterCommit(loopRunning);
        open := open.value.parent;
      }
    }

    /** Rollback to a savepoint; savepoints still open inside it are closed without an event of their own. */
    method RollbackToSavepoint(scope: Transaction)
      modifies this
      ensures Model() == Step(old(Model()), RollbackTo(scope))
    {
      if IsOpenSavepoint(open, scope) {
        open := scope.parent;
        DiscardAfterOuterRollback(scope);
      }
    }

    /** Outer commit: open savepoints are released from the inside out, then the root commits. */
    method CommitTransaction(loopRunning: bool)
      modifies this
      ensures Model() == Step(old(Model()), Commit(loopRunning))
    {
      while open.Some? && open.value.parent.Some?
        invariant Model() == old(Model()).(open := open)
        decreases open
      {
        DispatchAfterOuterCommit(loopRunning);
        open := open.value.parent;
      }
      DispatchAfterOuterCommit(loopRunning);
      open := None;
    }

    /** Outer rollback: every open transaction is rolled back from the inside out. */
    method RollbackTransaction()
      modifies this
      ensures Model() == Step(old(Model()), Rollback)
    {
      while open.Some?
        invariant unchanged(`next) && unchanged(`dispatched)
        invariant open.Some? || (if old(open).None? then unchanged(this) else Model().entries == [])
        invariant old(open).None? ==> unchanged(this)
        decreases open
      {
        var previous := open.value;
        open := previous.parent;
        DiscardAfterOuterRollback(previous);
      }
    }
  }

  /* ---- First reference: a stack of scopes ---- */

  /** One list of callbacks per open scope, outermost first. */
  datatype Stack = Stack(scopes: seq<Transaction>, frames: seq<seq<Callback>>, nextScope: nat, published: seq<Callback>)

  function Flatten(frames: seq<seq<Callback>>): seq<Callback> {
    if frames == [] then [] else Flatten(frames[..|frames| - 1]) + frames[|frames| - 1]
  }

  /** Opening pushes a frame, scheduling extends the top, release merges the top into the one below, rollback drops. */
  function StackStep(k: Stack, op: Op): Stack
    requires |k.frames| == |k.scopes|
  {
    var n := |k.frames|;
    match op
    case Begin =>
      if n > 0 then k
      else k.(scopes := [Transaction(k.nextScope, None)], frames := [[]], nextScope := k.nextScope + 1)
    case Savepoint =>
      if n == 0 then k
      else k.(scopes := k.scopes + [Transaction(k.nextScope, Some(k.scopes[n - 1]))],
              frames := k.frames + [[]], nextScope := k.nextScope + 1)
    case Schedule(_, callback) =>
      if n == 0 then k else k.(frames := k.frames[n - 1 := k.frames[n - 1] + [callback]])
    case Release =>
      if n <= 1 then k
      else k.(scopes := k.scopes[..n - 1],
              frames := k.frames[..n - 2] + [k.frames[n - 2] + k.frames[n - 1]])
    case RollbackTo(scope) =>
      if scope !in k.scopes[if n == 0 then 0 else 1..] then k
      else var i := IndexOf(k.scopes, scope); k.(scopes := k.scopes[..i], frames := k.frames[..i])
    case Commit(loopRunning) =>
      k.(scopes := [], frames := [],
         published := if loopRunning then k.published + Flatten(k.frames) else k.published)
    case Rollback => k.(scopes := [], frames := [])
  }

  function IndexOf(scopes: seq<Transaction>, scope: Transaction): (i: nat)
    requires scope in scopes
    ensures i < |scopes| && scopes[i] == scope
  {
    if scopes[0] == scope then 0 else 1 + IndexOf(scopes[1..], scope)
  }

  lemma StackStepAligned(k: Stack, op: Op)
    requires |k.frames| == |k.scopes|
    ensures |StackStep(k, op).frames| == |StackStep(k, op).scopes|
  {
  }

  function StackRun(k: Stack, ops: seq<Op>): (r: Stack)
    requires |k.frames| == |k.scopes|
    ensures |r.frames| == |r.scopes|
  {
    if ops == [] then k
    else
      var before := StackRun(k, ops[..|ops| - 1]);
      StackStepAligned(before, ops[|ops| - 1]);
      StackStep(before, ops[|ops| - 1])
  }

  /* Facts about scopes. */

  lemma ScopesAre(t: Option<Transaction>, scope: Transaction)
    ensures scope in Scopes(t) <==> (t.Some? && Inside(t.value, scope))
  {
    if t.Some? { ScopesAre(t.value.parent, scope); }
  }

  lemma ScopesPrefix(t: Option<Transaction>, i: nat)
    requires i < |Scopes(t)|
    ensures Scopes(Scopes(t)[i].parent) == Scopes(t)[..i]
    ensures Scopes(t)[i].parent.None? <==> i == 0
  {
    var outer := Scopes(t.value.parent);
    if i == |outer| {
      assert Scopes(t)[..i] == outer;
      if outer != [] { assert t.value.parent.Some?; }
    } else {
      ScopesPrefix(t.value.parent, i);
      assert Scopes(t)[..i] == outer[..i];
    }
  }

  lemma InsideTransitive(a: Transaction, b: Transaction, c: Transaction)
    requires Inside(a, b) && Inside(b, c)
    ensures Inside(a, c)
  {
  }

  lemma OuterScopeEncloses(t: Option<Transaction>, i: nat, j: nat)
    requires j <= i < |Scopes(t)|
    ensures Inside(Scopes(t)[i], Scopes(t)[j])
  {
    ScopesPrefix(t, i);
    if j < i {
      assert Scopes(t)[j] == Scopes(t)[..i][j];
      ScopesAre(Scopes(t)[i].parent, Scopes(t)[j]);
    }
  }

  lemma KeptAppend(entries: seq<Entry>, e: Entry, scope: Transaction)
    ensures Kept(entries + [e], scope)
         == Kept(entries, scope) + if Inside(e.transaction, scope) then [] else [e]
  {
    if entries == [] {
      assert entries + [e] == [e];
    } else {
      assert (entries + [e])[1..] == entries[1..] + [e];
      KeptAppend(entries[1..], e, scope);
    }
  }

  /** Dropping an inner scope first makes no difference to dropping an outer one. */
  lemma KeptInnerOuter(entries: seq<Entry>, inner: Transaction, outer: Transaction)
    requires Inside(inner, outer)
    ensures Kept(Kept(entries, inner), outer) == Kept(entries, outer)
  {
    if entries != [] {
      var e := entries[0];
      KeptInnerOuter(entries[1..], inner, outer);
      if Inside(e.transaction, inner) {
        InsideTransitive(e.transaction, inner, outer);
        assert Kept(entries, inner) == Kept(entries[1..], inner);
      } else {
        assert Kept(entries, inner) == [e] + Kept(entries[1..], inner);
        assert Kept(entries, inner)[1..] == Kept(entries[1..], inner);
      }
    }
  }

  lemma KeptAll(entries: seq<Entry>, scope: Transaction)
    requires forall i :: 0 <= i < |entries| ==> !Inside(entries[i].transaction, scope)
    ensures Kept(entries, scope) == entries
  {
  }

  lemma KeptFrom(entries: seq<Entry>, scope: Transaction, i: nat)
    requires i < |Kept(entries, scope)|
    ensures Kept(entries, scope)[i] in entries
  {
    if entries != [] && !(i == 0 && !Inside(entries[0].transaction, scope)) {
      KeptFrom(entries[1..], scope, if Inside(entries[0].transaction, scope) then i else i - 1);
    }
  }

  lemma OlderThan(t: Transaction, scope: Transaction, next: nat)
    requires Numbered(t, next) && Inside(t, scope)
    ensures scope.number < next
  {
  }

  predicate Numbered(t: Transaction, next: nat) {
    t.number < next && (t.parent.Some? ==> Numbered(t.parent.value, next))
  }

  lemma NumberedLater(t: Transaction, next: nat, later: nat)
    requires Numbered(t, next) && next <= later
    ensures Numbered(t, later)
  {
  }

  /** The flat list, cut at any open scope, is the stack cut at that scope. */
  ghost predicate Refines(s: State, k: Stack) {
    && Scopes(s.open) == k.scopes && |k.frames| == |k.scopes|
    && s.next == k.nextScope && s.dispatched == k.published
    && (s.open.Some? ==> Numbered(s.open.value, s.next))
    && (forall i :: 0 <= i < |s.entries| ==> Numbered(s.entries[i].transaction, s.next))
    && Callbacks(s.entries) == Flatten(k.frames)
    && (forall j :: 0 <= j < |k.scopes| ==> Callbacks(Kept(s.entries, k.scopes[j])) == Flatten(k.frames[..j]))
  }

  lemma OpenScopeRefines(s: State, k: Stack, op: Op)
    requires Refines(s, k) && (op.Begin? || op.Savepoint?)
    ensures Refines(Step(s, op), StackStep(k, op))
  {
    var s', k' := Step(s, op), StackStep(k, op);
    if s' != s {
      if op.Begin? { assert Flatten(k.frames) == []; assert s.entries == []; }
      var newest := s'.open.value;
      forall i | 0 <= i < |s.entries|
        ensures Numbered(s.entries[i].transaction, s'.next) && !Inside(s.entries[i].transaction, newest)
      {
        NumberedLater(s.entries[i].transaction, s.next, s'.next);
        if Inside(s.entries[i].transaction, newest) { OlderThan(s.entries[i].transaction, newest, s.next); }
      }
      if s.open.Some? { NumberedLater(s.open.value, s.next, s'.next); }
      KeptAll(s.entries, newest);
      var n := |k.scopes|;
      assert k'.frames[..n] == k.frames;
      assert Flatten(k'.frames) == Flatten(k.frames);
      forall j | 0 <= j < |k'.scopes|
        ensures Callbacks(Kept(s'.entries, k'.scopes[j])) == Flatten(k'.frames[..j])
      {
        if j < n { assert k'.frames[..j] == k.frames[..j]; }
      }
    }
  }

  lemma ScheduleRefines(s: State, k: Stack, op: Op)
    requires Refines(s, k) && op.Schedule?
    ensures Refines(Step(s, op), StackStep(k, op))
  {
    if s.open.Some? {
      var s', k' := Step(s, op), StackStep(k, op);
      var n := |k.frames|;
      var e := s'.entries[|s.entries|];
      assert k'.frames[..n - 1] == k.frames[..n - 1];
      assert Callbacks(s'.entries) == Callbacks(s.entries) + [op.callback];
      forall j | 0 <= j < n
        ensures Callbacks(Kept(s'.entries, k'.scopes[j])) == Flatten(k'.frames[..j])
      {
        KeptAppend(s.entries, e, k.scopes[j]);
        OuterScopeEncloses(s.open, n - 1, j);
        assert k'.frames[..j] == k.frames[..j];
      }
    }
  }

  lemma ReleaseRefines(s: State, k: Stack)
    requires Refines(s, k)
    ensures Refines(Step(s, Release), StackStep(k, Release))
  {
    var n := |k.frames|;
    if n >= 1 { ScopesPrefix(s.open, n - 1); }
    if n >= 2 {
      var k' := StackStep(k, Release);
      assert s.open.value.parent.Some?;
      assert k.frames[..n - 1][..n - 2] == k.frames[..n - 2];
      assert k'.frames[..n - 2] == k.frames[..n - 2];
      forall j | 0 <= j < n - 1
        ensures Callbacks(Kept(s.entries, k'.scopes[j])) == Flatten(k'.frames[..j])
      {
        assert k'.frames[..j] == k.frames[..j];
      }
    }
  }

  lemma RollbackToRefines(s: State, k: Stack, scope: Transaction)
    requires Refines(s, k)
    ensures Refines(Step(s, RollbackTo(scope)), StackStep(k, RollbackTo(scope)))
  {
    ScopesAre(s.open, scope);
    var s', k' := Step(s, RollbackTo(scope)), StackStep(k, RollbackTo(scope));
    if scope in k.scopes {
      var i := IndexOf(k.scopes, scope);
      ScopesPrefix(s.open, i);
      if i == 0 {
        forall m | 1 <= m < |k.scopes| ensures k.scopes[m] != scope { ScopesPrefix(s.open, m); }
        assert scope !in k.scopes[1..];
      } else {
        assert scope == k.scopes[1..][i - 1];
        assert s' == s.(open := scope.parent, entries := Kept(s.entries, scope));
        if scope.parent.Some? { assert Numbered(scope, s.next) by { NumberedInside(s.open.value, scope, s.next); } }
        forall m | 0 <= m < |s'.entries| ensures Numbered(s'.entries[m].transaction, s'.next) {
          KeptFrom(s.entries, scope, m);
        }
        forall j | 0 <= j < i
          ensures Callbacks(Kept(s'.entries, k'.scopes[j])) == Flatten(k'.frames[..j])
        {
          OuterScopeEncloses(s.open, i, j);
          KeptInnerOuter(s.entries, scope, k.scopes[j]);
          assert k'.frames[..j] == k.frames[..j];
        }
      }
    }
  }

  lemma NumberedInside(t: Transaction, scope: Transaction, next: nat)
    requires Numbered(t, next) && Inside(t, scope)
    ensures Numbered(scope, next)
  {
  }

  lemma StepRefines(s: State, k: Stack, op: Op)
    requires Refines(s, k)
    ensures Refines(Step(s, op), StackStep(k, op))
  {
    match op
    case Begin => OpenScopeRefines(s, k, op);
    case Savepoint => OpenScopeRefines(s, k, op);
    case Schedule(_, _) => ScheduleRefines(s, k, op);
    case Release => ReleaseRefines(s, k);
    case RollbackTo(scope) => RollbackToRefines(s, k, scope);
    case Commit(_) =>
    case Rollback =>
      if s.open.None? { assert k.frames == []; }
  }

  const FreshState := State(None, 0, [], [])
  const FreshStack := Stack([], [], 0, [])

  /** Main result: over every run the session publishes exactly what the stack of scopes publishes. */
  lemma {:induction false} SessionRefinesStack(ops: seq<Op>)
    ensures Refines(Run(FreshState, ops), StackRun(FreshStack, ops))
    ensures Run(FreshState, ops).dispatched == StackRun(FreshStack, ops).published
  {
    if ops != [] {
      SessionRefinesStack(ops[..|ops| - 1]);
      StepRefines(Run(FreshState, ops[..|ops| - 1]), StackRun(FreshStack, ops[..|ops| - 1]), ops[|ops| - 1]);
    }
  }

  /* ---- Second reference: the history of the outer transaction ---- */

  /** Everything scheduled since the outer transaction began, and every scope rolled back since. */
  datatype History = History(scheduled: seq<Entry>, doomed: set<Transaction>)

  /** No scope that enclosed the callback when it was scheduled has been rolled back. */
  predicate Survives(e: Entry, doomed: set<Transaction>) {
    forall scope :: scope in Scopes(Some(e.transaction)) ==> scope !in doomed
  }

  function Survivors(scheduled: seq<Entry>, doomed: set<Transaction>): seq<Entry> {
    if scheduled == [] then []
    else (if Survives(scheduled[0], doomed) then [scheduled[0]] else []) + Survivors(scheduled[1..], doomed)
  }

  /** The history after an operation applied in state `s`. */
  function Remember(h: History, s: State, op: Op): History {
    match op
    case Schedule(description, callback) =>
      if s.open.None? then h else h.(scheduled := h.scheduled + [Entry(s.open.value, description, callback)])
    case RollbackTo(scope) => if IsOpenSavepoint(s.open, scope) then h.(doomed := h.doomed + {scope}) else h
    case Commit(_) => History([], {})
    case Rollback => History([], {})
    case _ => h
  }

  function HistoryOf(ops: seq<Op>): History {
    if ops == [] then History([], {})
    else Remember(HistoryOf(ops[..|ops| - 1]), Run(FreshState, ops[..|ops| - 1]), ops[|ops| - 1])
  }

  lemma SurvivorsAppend(scheduled: seq<Entry>, e: Entry, doomed: set<Transaction>)
    ensures Survivors(scheduled + [e], doomed)
         == Survivors(scheduled, doomed) + if Survives(e, doomed) then [e] else []
  {
    if scheduled == [] {
      assert scheduled + [e] == [e];
    } else {
      assert (scheduled + [e])[1..] == scheduled[1..] + [e];
      SurvivorsAppend(scheduled[1..], e, doomed);
    }
  }

  lemma DoomingOneMore(scheduled: seq<Entry>, doomed: set<Transaction>, scope: Transaction)
    ensures Survivors(scheduled, doomed + {scope}) == Kept(Survivors(scheduled, doomed), scope)
  {
    if scheduled != [] {
      var e := scheduled[0];
      DoomingOneMore(scheduled[1..], doomed, scope);
      ScopesAre(Some(e.transaction), scope);
      assert Survives(e, doomed + {scope}) <==> Survives(e, doomed) && !Inside(e.transaction, scope);
      if Survives(e, doomed) {
        assert Survivors(scheduled, doomed) == [e] + Survivors(scheduled[1..], doomed);
        assert Survivors(scheduled, doomed)[1..] == Survivors(scheduled[1..], doomed);
      } else {
        assert Survivors(scheduled, doomed) == Survivors(scheduled[1..], doomed);
      }
    }
  }

  /** A scope that is still open has not been rolled back. */
  ghost predicate OpenScopesLive(s: State, h: History) {
    && (s.open.Some? ==> Numbered(s.open.value, s.next))
    && (forall scope :: scope in Scopes(s.open) ==> scope !in h.doomed)
    && (forall scope :: scope in h.doomed ==> scope.number < s.next)
  }

  lemma StepKeepsScopesLive(s: State, h: History, op: Op)
    requires OpenScopesLive(s, h)
    ensures OpenScopesLive(Step(s, op), Remember(h, s, op))
  {
    var s' := Step(s, op);
    if (op.Begin? || op.Savepoint?) && s.open.Some? { NumberedLater(s.open.value, s.next, s'.next); }
    if op.RollbackTo? && IsOpenSavepoint(s.open, op.scope) {
      NumberedInside(s.open.value, op.scope, s.next);
      ScopesAre(s.open, op.scope);
      var i := IndexOf(Scopes(s.open), op.scope);
      ScopesPrefix(s.open, i);
      forall scope | scope in Scopes(s'.open) ensures scope !in h.doomed + {op.scope} {
        assert scope in Scopes(s.open)[..i];
        ScopesAre(s'.open, scope);
        if scope == op.scope { StrictlyInside(op.scope.parent.value, op.scope); }
      }
    }
  }

  /** A transaction is never inside one of its own savepoints. */
  lemma StrictlyInside(outer: Transaction, inner: Transaction)
    requires inner.parent == Some(outer)
    ensures !Inside(outer, inner)
  {
    if Inside(outer, inner) {
      SizeOfInside(outer, inner);
    }
  }

  function Size(t: Transaction): nat {
    1 + if t.parent.None? then 0 else Size(t.parent.value)
  }

  lemma SizeOfInside(t: Transaction, scope: Transaction)
    requires Inside(t, scope)
    ensures Size(scope) <= Size(t)
  {
  }

  /**
   Main result, in terms of the history alone: at any moment of any run the pending callbacks are
   exactly those scheduled since the outer transaction began none of whose enclosing scopes was
   rolled back, in schedule order and once each.
   */
  lemma {:induction false} PendingAreTheSurvivors(ops: seq<Op>)
    ensures OpenScopesLive(Run(FreshState, ops), HistoryOf(ops))
    ensures Run(FreshState, ops).entries == Survivors(HistoryOf(ops).scheduled, HistoryOf(ops).doomed)
  {
    if ops != [] {
      var before := ops[..|ops| - 1];
      var op := ops[|ops| - 1];
      PendingAreTheSurvivors(before);
      var s, h := Run(FreshState, before), HistoryOf(before);
      StepKeepsScopesLive(s, h, op);
      if op.Schedule? && s.open.Some? {
        SurvivorsAppend(h.scheduled, Entry(s.open.value, op.description, op.callback), h.doomed);
      }
      if op.RollbackTo? && IsOpenSavepoint(s.open, op.scope) {
        DoomingOneMore(h.scheduled, h.doomed, op.scope);
      }
      if op.Rollback? && s.open.None? {
        SessionRefinesStack(before);
        assert s.entries == [];
      }
    }
  }

  /** An outer commit publishes the survivors and leaves nothing for a later outer transaction. */
  lemma CommitPublishesSurvivors(ops: seq<Op>)
    ensures var h := HistoryOf(ops); var s := Run(FreshState, ops); var t := Step(s, Commit(true));
            && t.dispatched == s.dispatched + Callbacks(Survivors(h.scheduled, h.doomed))
            && t.entries == []
  {
    PendingAreTheSurvivors(ops);
    CommitPublishesPending(Run(FreshState, ops));
  }

  lemma CommitPublishesPending(s: State)
    ensures Step(s, Commit(true)).dispatched == s.dispatched + Callbacks(s.entries)
    ensures Step(s, Commit(true)).entries == []
  {
  }

  /** What an outer rollback or a commit without a running loop does not publish is never published later. */
  lemma NothingLeaks(ops: seq<Op>)
    ensures Run(FreshState, ops).open.None? ==> Run(FreshState, ops).entries == []
  {
    SessionRefinesStack(ops);
  }
}
