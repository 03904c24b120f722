/**
 The row-level-security scope of an ORM session: the scope kept in the session's info, the
 transaction-local tenant setting, the context variable, and nested bypass scopes, under
 statement failures and explicit commits. Savepoints are not part of this model.
 */
module RlsScope {
  import opened Wrappers

  type TenantId = s: string | s != "" && s != "BYPASS" witness "t"

  /** A value of `app.current_tenant_id`. */
  datatype Scope = Empty | Tenant(id: TenantId) | Bypass

  /** A tenant argument before validation. */
  datatype TenantArg = Absent | Uuid(id: TenantId) | Garbage

  /** `_normalize_rls_tenant_value`; None is its ValueError. */
  function Normalize(arg: TenantArg): Option<Scope> {
    match arg
    case Absent => Some(Empty)
    case Uuid(id) => Some(Tenant(id))
    case Garbage => None
  }

  /** What may go wrong while one statement runs. */
  datatype Faults = Faults(connect: bool, hook: bool, statement: bool, flush: bool)

  /** `setting` is the transaction-local value; an aborted transaction accepts no statement. */
  datatype Transaction = Closed | Open(setting: Option<Scope>, aborted: bool, active: bool)

  /** `info` is the persisted scope, absent when None; `context` is the context variable. */
  datatype State = State(info: Option<Scope>, txn: Transaction, context: TenantArg, observation: Option<seq<Scope>>)

  predicate Healthy(s: State) {
    s.txn.Open? && !s.txn.aborted && s.txn.active
  }

  datatype Outcome = Outcome(state: State, raised: bool)

  /** `session.connection()`: autobegin, and the `after_begin` hook that re-applies the persisted scope. */
  function Connect(s: State, f: Faults): Outcome {
    match s.txn
    case Open(_, _, active) => Outcome(s, !active)
    case Closed =>
      if f.connect then Outcome(s, true)
      else if s.info.None? then Outcome(s.(txn := Open(None, false, true)), false)
      else if f.hook then Outcome(s.(txn := Open(None, true, true)), true)
      else
        Outcome(s.(txn := Open(s.info, false, true),
                   observation := if s.observation.None? then None else Some(s.observation.value + [s.info.value])),
                false)
  }

  /** Any statement; a failing flush also deactivates the session's transaction. */
  function Statement(s: State, f: Faults): Outcome {
    var c := Connect(s, f);
    if c.raised then c
    else if c.state.txn.aborted then Outcome(c.state, true)
    else if f.flush then Outcome(c.state.(txn := c.state.txn.(aborted := true, active := false)), true)
    else if f.statement then Outcome(c.state.(txn := c.state.txn.(aborted := true)), true)
    else Outcome(c.state, false)
  }

  /** `SET LOCAL app.current_tenant_id = scope`. */
  function SetLocal(s: State, scope: Scope, f: Faults): Outcome {
    var r := Statement(s, f.(flush := false));
    if r.raised then r else Outcome(r.state.(txn := r.state.txn.(setting := Some(scope))), false)
  }

  /** A commit that the session refuses leaves everything; otherwise the transaction, and SET LOCAL, are gone. */
  function CommitOutcome(s: State, f: Faults): Outcome {
    match s.txn
    case Closed => Outcome(s, false)
    case Open(_, _, active) => if !active then Outcome(s, true) else Outcome(s.(txn := Closed), f.statement)
  }

  function Pin(s: State, arg: TenantArg, f: Faults, g: Faults): Outcome {
    var scope := Normalize(arg);
    if scope.None? then Outcome(s, true)
    else
      var pinned := s.(info := scope, context := arg, observation := Some([]));
      var c := Connect(pinned, f);
      var r := if c.raised || c.state.observation == Some([scope.value]) then c else SetLocal(c.state, scope.value, g);
      Outcome(r.state.(observation := s.observation), r.raised)
  }

  /** Entry of `enter_rls_bypass` up to its `yield`. */
  function EnterBypass(s: State, f: Faults): Outcome {
    SetLocal(s.(info := Some(Bypass)), Bypass, f)
  }

  /** The scope the exit path sets: the persisted one, else the context variable, failing closed. */
  function RestoreTarget(previous: Option<Scope>, context: TenantArg): Scope {
    if previous.Some? then previous.value
    else if Normalize(context).None? then Empty else Normalize(context).value
  }

  /** The `finally` of `enter_rls_bypass`; its own failures are logged, never raised. */
  function ExitBypass(s: State, previous: Option<Scope>, entered: bool, f: Faults): State {
    var restored := s.(info := previous);
    if !entered || (s.txn.Open? && !s.txn.active) then restored
    else SetLocal(restored, RestoreTarget(previous, s.context), f).state
  }

  /* ---- Programs over one session ---- */

  datatype Op =
    | Execute(faults: Faults)
    | Commit(faults: Faults)
    | Rollback
    | PinTenant(arg: TenantArg, connectFaults: Faults, setFaults: Faults)
    | SetContext(arg: TenantArg)
    | BypassScope(blankReason: bool, enterFaults: Faults, body: seq<Op>, exitFaults: Faults)
    | Catching(body: seq<Op>)

  function RunOp(op: Op, s: State): Outcome
    decreases op
  {
    match op
    case Execute(f) => Statement(s, f)
    case Commit(f) => CommitOutcome(s, f)
    case Rollback => Outcome(s.(txn := Closed), false)
    case PinTenant(arg, f, g) => Pin(s, arg, f, g)
    case SetContext(arg) => Outcome(s.(context := arg), false)
    case BypassScope(blank, f, body, g) =>
      if blank then Outcome(s, true)
      else
        var e := EnterBypass(s, f);
        if e.raised then Outcome(ExitBypass(e.state, s.info, false, g), true)
        else
          var b := RunAll(body, e.state);
          Outcome(ExitBypass(b.state, s.info, true, g), b.raised)
    case Catching(body) => Outcome(RunAll(body, s).state, false)
  }

  /** An exception ends the sequence. */
  function RunAll(ops: seq<Op>, s: State): Outcome
    decreases ops
  {
    if ops == [] then Outcome(s, false)
    else
      var r := RunOp(ops[0], s);
      if r.raised then r else RunAll(ops[1..], r.state)
  }

  /* ---- The three guarantees ---- */

  /** (a) In a healthy transaction a session that carries a scope runs under exactly that scope. */
  predicate SettingAgrees(s: State) {
    Healthy(s) && s.info.Some? ==> s.txn.setting == s.info
  }

  /** (b) Neither the session nor its transaction is in bypass. */
  predicate NotBypassed(s: State) {
    s.info != Some(Bypass) && (Healthy(s) ==> s.txn.setting != Some(Bypass))
  }

  lemma StatementKeepsAgreement(s: State, f: Faults)
    requires SettingAgrees(s)
    ensures SettingAgrees(Statement(s, f).state) && Statement(s, f).state.info == s.info
    ensures NotBypassed(s) ==> NotBypassed(Statement(s, f).state)
  {
  }

  /** After SET LOCAL the setting is the given scope, or there is no healthy transaction. */
  lemma SetLocalEffect(s: State, scope: Scope, f: Faults)
    ensures var r := SetLocal(s, scope, f);
            && r.state.info == s.info && r.state.context == s.context
            && (Healthy(r.state) ==> r.state.txn.setting == Some(scope) || (r.raised && Healthy(s) && r.state.txn == s.txn))
            && (!r.raised ==> Healthy(r.state))
            && (r.raised ==> !Healthy(r.state))
  {
  }

  lemma PinKeepsAgreement(s: State, arg: TenantArg, f: Faults, g: Faults)
    requires SettingAgrees(s)
    ensures SettingAgrees(Pin(s, arg, f, g).state)
    ensures NotBypassed(s) ==> NotBypassed(Pin(s, arg, f, g).state)
    ensures Normalize(arg).Some? ==> Pin(s, arg, f, g).state.info == Normalize(arg)
    ensures !Pin(s, arg, f, g).raised ==> Healthy(Pin(s, arg, f, g).state)
  {
  }

  /** Leaving a bypass scope restores the session's scope, and a healthy transaction runs under the restored one. */
  lemma ExitRestores(s: State, previous: Option<Scope>, entered: bool, f: Faults)
    requires !entered ==> !Healthy(s)
    ensures var t := ExitBypass(s, previous, entered, f);
            t.info == previous
            && (Healthy(t) ==> t.txn.setting == Some(RestoreTarget(previous, s.context)))
  {
    SetLocalEffect(s.(info := previous), RestoreTarget(previous, s.context), f);
  }

  lemma BypassKeepsAgreement(op: Op, s: State)
    requires op.BypassScope? && SettingAgrees(s)
    ensures SettingAgrees(RunOp(op, s).state) && RunOp(op, s).state.info == s.info
    ensures NotBypassed(s) ==> NotBypassed(RunOp(op, s).state)
  {
    if !op.blankReason {
      var e := EnterBypass(s, op.enterFaults);
      SetLocalEffect(s.(info := Some(Bypass)), Bypass, op.enterFaults);
      if e.raised {
        ExitRestores(e.state, s.info, false, op.exitFaults);
      } else {
        ExitRestores(RunAll(op.body, e.state).state, s.info, true, op.exitFaults);
      }
    }
  }

  lemma {:induction false} OpKeepsScope(op: Op, s: State)
    requires SettingAgrees(s)
    ensures SettingAgrees(RunOp(op, s).state)
    ensures NotBypassed(s) ==> NotBypassed(RunOp(op, s).state)
    decreases op
  {
    match op
    case Execute(f) => StatementKeepsAgreement(s, f);
    case Commit(_) =>
    case Rollback =>
    case PinTenant(arg, f, g) => PinKeepsAgreement(s, arg, f, g);
    case SetContext(_) =>
    case BypassScope(_, _, _, _) => BypassKeepsAgreement(op, s);
    case Catching(body) => RunKeepsScope(body, s);
  }

  /**
   Guarantees (a) and (b), for every program of statements, commits, rollbacks, pins and nested
   bypass scopes, with any failures. Every prefix of a program is a program, so they hold after
   every step outside the bypass scopes; (a) holds inside them too, by `InsideBypass`.
   */
  lemma {:induction false} RunKeepsScope(ops: seq<Op>, s: State)
    requires SettingAgrees(s)
    ensures SettingAgrees(RunAll(ops, s).state)
    ensures NotBypassed(s) ==> NotBypassed(RunAll(ops, s).state)
    decreases ops
  {
    if ops != [] {
      OpKeepsScope(ops[0], s);
      if !RunOp(ops[0], s).raised { RunKeepsScope(ops[1..], RunOp(ops[0], s).state); }
    }
  }

  /** Inside a bypass scope the same agreement holds after every prefix of its body. */
  lemma InsideBypass(s: State, f: Faults, prefix: seq<Op>)
    requires SettingAgrees(s) && !EnterBypass(s, f).raised
    ensures EnterBypass(s, f).state.info == Some(Bypass) && SettingAgrees(EnterBypass(s, f).state)
    ensures SettingAgrees(RunAll(prefix, EnterBypass(s, f).state).state)
  {
    SetLocalEffect(s.(info := Some(Bypass)), Bypass, f);
    RunKeepsScope(prefix, EnterBypass(s, f).state);
  }

  /** (c) Leaving a scope by any path restores the exact prior session scope, for every body. */
  lemma ScopeIsRestored(blank: bool, f: Faults, body: seq<Op>, g: Faults, s: State)
    ensures RunOp(BypassScope(blank, f, body, g), s).state.info == s.info
  {
    if !blank {
      var e := EnterBypass(s, f);
      SetLocalEffect(s.(info := Some(Bypass)), Bypass, f);
      if e.raised {
        ExitRestores(e.state, s.info, false, g);
      } else {
        ExitRestores(RunAll(body, e.state).state, s.info, true, g);
      }
    }
  }

  /**
   A session that entered without a scope leaves under the tenant of the context variable as it is on
   exit, or under the empty scope if that is absent or no tenant.
   */
  lemma UnscopedSessionFallsBack(f: Faults, body: seq<Op>, g: Faults, s: State)
    requires s.info.None?
    ensures var t := RunOp(BypassScope(false, f, body, g), s).state;
            Healthy(t) ==>
              t.txn.setting == Some(match t.context case Uuid(id) => Tenant(id) case Absent => Empty case Garbage => Empty)
  {
    var e := EnterBypass(s, f);
    SetLocalEffect(s.(info := Some(Bypass)), Bypass, f);
    if e.raised {
      ExitRestores(e.state, s.info, false, g);
    } else {
      ExitRestores(RunAll(body, e.state).state, s.info, true, g);
    }
  }

  /* ---- What each step does, failures included ---- */

  /** No tenant is the empty scope; what is no tenant at all is refused. */
  function ScopeOf(arg: TenantArg): Scope {
    if arg.Uuid? then Tenant(arg.id) else Empty
  }

  /** A new transaction: under the persisted scope if there is one. */
  function Begun(s: State): Transaction {
    Open(s.info, false, true)
  }

  /** A transaction begins unless the checkout fails, or the hook where there is a scope to apply. */
  predicate Begins(s: State, f: Faults) {
    !f.connect && (s.info.Some? ==> !f.hook)
  }

  /** The checkout of a connection: it begins a transaction, or fails without one, or leaves an aborted one. */
  lemma ConnectExactly(s: State, f: Faults)
    requires s.observation.None?
    ensures s.txn.Open? ==> Connect(s, f) == Outcome(s, !s.txn.active)
    ensures s.txn.Closed? && Begins(s, f) ==> Connect(s, f) == Outcome(s.(txn := Begun(s)), false)
    ensures s.txn.Closed? && f.connect ==> Connect(s, f) == Outcome(s, true)
    ensures s.txn.Closed? && !f.connect && !Begins(s, f) ==> Connect(s, f) == Outcome(s.(txn := Open(None, true, true)), true)
  {
  }

  /**
   A statement of a healthy transaction fails exactly by its own or its flush's fault and aborts the
   transaction then; a failed flush also leaves the session inactive. In any other open transaction no
   statement passes, and nothing changes.
   */
  lemma StatementExactly(s: State, f: Faults)
    requires s.txn.Open?
    ensures Statement(s, f).raised <==> !Healthy(s) || f.flush || f.statement
    ensures Statement(s, f).state
            == if Healthy(s) && f.flush then s.(txn := Open(s.txn.setting, true, false))
               else if Healthy(s) && f.statement then s.(txn := Open(s.txn.setting, true, true))
               else s
  {
  }

  /** Outside a transaction it begins one first. */
  lemma StatementBegins(s: State, f: Faults)
    requires s.txn.Closed? && s.observation.None?
    ensures Begins(s, f) ==> Statement(s, f) == Statement(s.(txn := Begun(s)), f)
    ensures !Begins(s, f) ==> Statement(s, f) == Connect(s, f) && Statement(s, f).raised
  {
  }

  /** SET LOCAL of a healthy transaction changes the setting and nothing else, or aborts the transaction. */
  lemma SetLocalExactly(s: State, scope: Scope, f: Faults)
    requires Healthy(s)
    ensures SetLocal(s, scope, f)
            == if f.statement then Outcome(s.(txn := Open(s.txn.setting, true, true)), true)
               else Outcome(s.(txn := Open(Some(scope), false, true)), false)
  {
  }

  /** A commit ends any transaction but an inactive one, which only a rollback ends. */
  lemma CommitExactly(s: State, f: Faults)
    ensures CommitOutcome(s, f).raised <==> s.txn.Open? && (!s.txn.active || f.statement)
    ensures CommitOutcome(s, f).state == if s.txn.Open? && !s.txn.active then s else s.(txn := Closed)
  {
  }

  /** Whatever fails, pinning sets session scope and context variable to the tenant, and leaves both for what is none. */
  lemma PinSets(s: State, arg: TenantArg, f: Faults, g: Faults)
    ensures var t := Pin(s, arg, f, g).state;
            && t.info == (if arg.Garbage? then s.info else Some(ScopeOf(arg)))
            && t.context == (if arg.Garbage? then s.context else arg)
            && t.observation == s.observation
    ensures arg.Garbage? ==> Pin(s, arg, f, g) == Outcome(s, true)
  {
  }

  /**
   A pin outside a transaction is done by the begin hook and needs no statement of its own, so its own
   statement cannot fail it; in an open transaction it needs exactly that statement.
   */
  lemma PinExactly(s: State, arg: TenantArg, f: Faults, g: Faults)
    requires !arg.Garbage?
    ensures s.txn.Closed? ==> (Pin(s, arg, f, g).raised <==> f.connect || f.hook)
    ensures s.txn.Open? ==> (Pin(s, arg, f, g).raised <==> !Healthy(s) || g.statement)
    ensures !Pin(s, arg, f, g).raised ==> Pin(s, arg, f, g).state.txn == Open(Some(ScopeOf(arg)), false, true)
    ensures s.txn.Open? && Pin(s, arg, f, g).raised && !Healthy(s) ==> Pin(s, arg, f, g).state.txn == s.txn
  {
    assert [] + [ScopeOf(arg)] == [ScopeOf(arg)];
  }

  /**
   Leaving never raises: a bypass scope raises exactly if it has no reason, cannot be entered, or its body
   raises. One that cannot be entered issues no further statement and only puts the session's scope back.
   */
  lemma BypassRaisesExactly(blank: bool, f: Faults, body: seq<Op>, g: Faults, s: State)
    ensures RunOp(BypassScope(blank, f, body, g), s).raised
            <==> blank || EnterBypass(s, f).raised || RunAll(body, EnterBypass(s, f).state).raised
    ensures blank ==> RunOp(BypassScope(blank, f, body, g), s).state == s
    ensures !blank && EnterBypass(s, f).raised ==>
              RunOp(BypassScope(blank, f, body, g), s).state == EnterBypass(s, f).state.(info := s.info)
  {
  }

  /** An exception ends a sequence where it is raised, and passes no handler. */
  lemma {:induction false} RunSplits(a: seq<Op>, b: seq<Op>, s: State)
    ensures RunAll(a + b, s) == if RunAll(a, s).raised then RunAll(a, s) else RunAll(b, RunAll(a, s).state)
    ensures RunOp(Catching(a), s) == Outcome(RunAll(a, s).state, false)
    decreases a
  {
    if a == [] {
      assert a + b == b;
    } else {
      assert (a + b)[0] == a[0] && (a + b)[1..] == a[1..] + b;
      if !RunOp(a[0], s).raised { RunSplits(a[1..], b, RunOp(a[0], s).state); }
    }
  }

  /* ---- Programs in which nothing fails ---- */

  predicate NoFaults(f: Faults) {
    !f.connect && !f.hook && !f.statement && !f.flush
  }

  /** No fault, no tenant that is none, and a reason for every bypass. */
  predicate Calm(op: Op)
    decreases op
  {
    match op
    case Execute(f) => NoFaults(f)
    case Commit(f) => NoFaults(f)
    case Rollback => true
    case PinTenant(arg, f, g) => !arg.Garbage? && NoFaults(f) && NoFaults(g)
    case SetContext(_) => true
    case BypassScope(blank, f, body, g) => !blank && NoFaults(f) && NoFaults(g) && AllCalm(body)
    case Catching(body) => AllCalm(body)
  }

  predicate AllCalm(ops: seq<Op>)
    decreases ops
  {
    ops == [] || (Calm(ops[0]) && AllCalm(ops[1..]))
  }

  /** The session's scope after a program: the last pin outside bypass scopes decides. */
  function ScopeAfter(ops: seq<Op>, info: Option<Scope>): Option<Scope>
    decreases ops
  {
    if ops == [] then info
    else
      var next := match ops[0]
                  case PinTenant(arg, _, _) => Some(ScopeOf(arg))
                  case Catching(body) => ScopeAfter(body, info)
                  case _ => info;
      ScopeAfter(ops[1..], next)
  }

  /** The context variable after it: the last pin or assignment anywhere decides. */
  function ContextAfter(ops: seq<Op>, context: TenantArg): TenantArg
    decreases ops
  {
    if ops == [] then context
    else
      var next := match ops[0]
                  case PinTenant(arg, _, _) => arg
                  case SetContext(arg) => arg
                  case BypassScope(_, _, body, _) => ContextAfter(body, context)
                  case Catching(body) => ContextAfter(body, context)
                  case _ => context;
      ContextAfter(ops[1..], next)
  }

  /** Between transactions or in a healthy one. */
  predicate Ready(s: State) {
    s.observation.None? && (s.txn.Closed? || Healthy(s))
  }

  lemma CalmSetLocal(s: State, scope: Scope, f: Faults)
    requires Ready(s) && NoFaults(f)
    ensures !SetLocal(s, scope, f).raised && Ready(SetLocal(s, scope, f).state)
    ensures SetLocal(s, scope, f).state == s.(txn := Open(Some(scope), false, true))
  {
  }

  lemma CalmPin(s: State, arg: TenantArg, f: Faults, g: Faults)
    requires Ready(s) && !arg.Garbage? && NoFaults(f) && NoFaults(g)
    ensures Pin(s, arg, f, g)
            == Outcome(State(Some(ScopeOf(arg)), Open(Some(ScopeOf(arg)), false, true), arg, None), false)
  {
    PinSets(s, arg, f, g);
    PinExactly(s, arg, f, g);
  }

  lemma CalmBypass(f: Faults, body: seq<Op>, g: Faults, s: State)
    requires Ready(s) && NoFaults(f) && NoFaults(g)
    requires var inner := RunAll(body, s.(info := Some(Bypass), txn := Open(Some(Bypass), false, true)));
             !inner.raised && Ready(inner.state)
    ensures var inner := RunAll(body, s.(info := Some(Bypass), txn := Open(Some(Bypass), false, true)));
            var r := RunOp(BypassScope(false, f, body, g), s);
            && !r.raised && Ready(r.state) && Healthy(r.state)
            && r.state.info == s.info && r.state.context == inner.state.context
  {
    CalmSetLocal(s.(info := Some(Bypass)), Bypass, f);
    var inner := RunAll(body, s.(info := Some(Bypass), txn := Open(Some(Bypass), false, true))).state;
    CalmSetLocal(inner.(info := s.info), RestoreTarget(s.info, inner.context), g);
  }

  /**
   A program in which nothing fails never raises, and ends with the scope of its last pin outside bypass
   scopes and the context variable of its last pin or assignment anywhere.
   */
  lemma {:induction false} CalmRunSucceeds(ops: seq<Op>, s: State)
    requires AllCalm(ops) && Ready(s)
    ensures !RunAll(ops, s).raised && Ready(RunAll(ops, s).state)
    ensures RunAll(ops, s).state.info == ScopeAfter(ops, s.info)
    ensures RunAll(ops, s).state.context == ContextAfter(ops, s.context)
    decreases ops
  {
    if ops != [] {
      CalmStep(ops[0], s);
      CalmRunSucceeds(ops[1..], RunOp(ops[0], s).state);
    }
  }

  lemma {:induction false} CalmStep(op: Op, s: State)
    requires Calm(op) && Ready(s)
    ensures !RunOp(op, s).raised && Ready(RunOp(op, s).state)
    ensures RunOp(op, s).state.info == ScopeAfter([op], s.info)
    ensures RunOp(op, s).state.context == ContextAfter([op], s.context)
    decreases op
  {
    match op
    case PinTenant(arg, f, g) => CalmPin(s, arg, f, g);
    case BypassScope(_, f, body, g) =>
      CalmRunSucceeds(body, s.(info := Some(Bypass), txn := Open(Some(Bypass), false, true)));
      CalmBypass(f, body, g, s);
    case Catching(body) => CalmRunSucceeds(body, s);
    case _ =>
  }

  /* ---- tenant_scoped_session ---- */

  /** The session when the body ended, absent when no body ran; and the context variable afterwards. */
  datatype ScopedOutcome = ScopedOutcome(body: Option<State>, context: TenantArg, raised: bool)

  /** A fresh session pinned to a tenant, the body, commit or rollback, and the context variable put back. */
  function ScopedSession(context: TenantArg, tenant: Option<TenantArg>, requireTenant: bool, f: Faults, g: Faults,
                         body: seq<Op>, commit: Faults): ScopedOutcome
  {
    var effective := if tenant.Some? then tenant.value else context;
    if requireTenant && effective == Absent then ScopedOutcome(None, context, true)
    else
      var p := Pin(State(None, Closed, context, None), effective, f, g);
      if p.raised then ScopedOutcome(None, p.state.(context := context).context, true)
      else
        var b := RunAll(body, p.state);
        var raised := b.raised || CommitOutcome(b.state, commit).raised;
        ScopedOutcome(Some(b.state), b.state.(context := context).context, raised)
  }

  /**
   The body of a scoped session starts in a healthy transaction under the effective tenant, which is also
   the context variable then, and it ends without bypass whatever it did. No body runs exactly if a
   required tenant is missing, the tenant is none, or no transaction can be begun.
   */
  lemma ScopedSessionIsPinned(context: TenantArg, tenant: Option<TenantArg>, requireTenant: bool, f: Faults,
                              g: Faults, body: seq<Op>, commit: Faults)
    ensures var r := ScopedSession(context, tenant, requireTenant, f, g, body, commit);
            var effective := if tenant.Some? then tenant.value else context;
            var start := State(Some(ScopeOf(effective)), Open(Some(ScopeOf(effective)), false, true), effective, None);
            && r.context == context
            && (r.body.None? <==> (requireTenant && effective.Absent?) || effective.Garbage? || f.connect || f.hook)
            && (r.body.None? ==> r.raised)
            && (r.body.Some? ==>
                  && r.body.value == RunAll(body, start).state
                  && (r.raised <==> RunAll(body, start).raised || CommitOutcome(r.body.value, commit).raised)
                  && SettingAgrees(r.body.value) && NotBypassed(r.body.value))
  {
    var effective := if tenant.Some? then tenant.value else context;
    var s0 := State(None, Closed, context, None);
    PinKeepsAgreement(s0, effective, f, g);
    PinSets(s0, effective, f, g);
    if !effective.Garbage? { PinExactly(s0, effective, f, g); }
    RunKeepsScope(body, Pin(s0, effective, f, g).state);
  }

  /* ---- The session object ---- */

  class OrmSession {
    var info: Option<Scope>
    var txn: Transaction
    var context: TenantArg
    var observation: Option<seq<Scope>>

    function Model(): State
      reads this
    {
      State(info, txn, context, observation)
    }

    /** Checks out a connection; the begin hook re-pins the persisted scope and reports it to a pin in progress. */
    method Connection(f: Faults) returns (raised: bool)
      modifies this
      ensures Outcome(Model(), raised) == Connect(old(Model()), f)
    {
      if txn.Open? {
        return !txn.active;
      }
      if f.connect {
        return true;
      }
      txn := Open(None, false, true);
      if info.Some? {
        if f.hook {
          txn := txn.(aborted := true);
          return true;
        }
        txn := txn.(setting := info);
        if observation.Some? {
          observation := Some(observation.value + [info.value]);
        }
      }
      return false;
    }

    method ExecuteSetLocal(scope: Scope, f: Faults) returns (raised: bool)
      modifies this
      ensures Outcome(Model(), raised) == SetLocal(old(Model()), scope, f)
    {
      raised := Connection(f.(flush := false));
      if raised {
        return;
      }
      if txn.aborted || f.statement {
        txn := txn.(aborted := true);
        return true;
      }
      txn := txn.(setting := Some(scope));
    }

    method PinRlsTenantContext(arg: TenantArg, f: Faults, g: Faults) returns (raised: bool)
      modifies this
      ensures Outcome(Model(), raised) == Pin(old(Model()), arg, f, g)
    {
      var pinned := Normalize(arg);
      if pinned.None? {
        return true;
      }
      info, context := pinned, arg;
      var previous := observation;
      observation := Some([]);
      raised := Connection(f);
      if !raised && observation != Some([pinned.value]) {
        raised := ExecuteSetLocal(pinned.value, g);
      }
      observation := previous;
    }

    /** Enters a bypass scope and hands back what its exit needs. */
    method EnterRlsBypass(f: Faults) returns (previous: Option<Scope>, entered: bool)
      modifies this
      ensures previous == old(info)
      ensures Outcome(Model(), !entered) == EnterBypass(old(Model()), f)
    {
      previous := info;
      info := Some(Bypass);
      var raised := ExecuteSetLocal(Bypass, f);
      entered := !raised;
    }

    method ExitRlsBypass(previous: Option<Scope>, entered: bool, f: Faults)
      modifies this
      ensures Model() == ExitBypass(old(Model()), previous, entered, f)
    {
      if !entered || (txn.Open? && !txn.active) {
        info := previous;
        return;
      }
      var restored := RestoreTarget(previous, context);
      info := previous;
      var _ := ExecuteSetLocal(restored, f);
    }
  }
}
