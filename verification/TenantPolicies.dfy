/**
 Row-level tenant policies: the predicate pair of every table, and what a session scoped to one
 tenant can change and learn. A statement sees the database only through the rows its USING
 predicate admits, and may leave behind only rows its WITH CHECK predicate admits.
 */
module TenantPolicies {
  import opened Wrappers

  /** The text of a tenant's UUID. */
  type TenantId = s: string | |s| == 36 witness seq(36, _ => '0')

  /** Tables with a policy of their own; every other protected table is strict. */
  datatype Table =
    | Tenants | Users | Agents | AgentTeams | PlazaPosts | Skills
    | Notifications | RefreshTokens | ExternalIdentities | PlazaComments | PlazaLikes | SkillFiles
    | Participants | AgentTeamMembers | AgentTeamEvents
    | FeatureFlags | SystemSettings | Identities
    | AgentTemplates | IdentityProviders | LlmModels | RuntimeBudgetPolicies | Tools | WorkflowDefinitions
    | AuditLogs
    | OtherStrict(name: string)

  datatype Column =
    | UserId | PostId | SkillId | TeamId | RefId | Type | IsBuiltin | ScopeType | VisibilityScope | OwnerType
    | Other(name: string)

  /** A row under its primary key; a column that is not in the map is NULL. */
  datatype Row = Row(tenant: Option<TenantId>, columns: map<Column, string>)
  datatype Key = Key(table: Table, id: string)
  type Db = map<Key, Row>

  /* ---- The predicates ---- */

  const BYPASS := "BYPASS"
  const SECRET_SETTINGS := {"jina_api_key", "tavily_api_key", "exa_api_key", "firecrawl_api_key"}

  /** `app.current_tenant_id`, None while it was never set. A comparison with NULL admits nothing. */
  type Setting = Option<string>

  predicate Bypass(s: Setting) {
    s == Some(BYPASS)
  }

  predicate Owns(s: Setting, tenant: Option<TenantId>) {
    tenant.Some? && s == Some(tenant.value)
  }

  predicate Is(row: Row, column: Column, text: string) {
    column in row.columns && row.columns[column] == text
  }

  /** The rows without a tenant that every tenant may read. */
  predicate PlatformShared(table: Table, row: Row) {
    row.tenant.None? &&
    match table
    case AgentTemplates => Is(row, IsBuiltin, "true")
    case IdentityProviders => true
    case LlmModels => true
    case RuntimeBudgetPolicies => Is(row, ScopeType, "platform_default")
    case Skills => Is(row, IsBuiltin, "true")
    case Tools => Is(row, Type, "builtin")
    case WorkflowDefinitions => Is(row, VisibilityScope, "platform") && Is(row, OwnerType, "platform")
    case _ => false
  }

  /** Tables without a tenant column of their own, owned through a parent row. */
  predicate Derived(table: Table) {
    table in {Notifications, RefreshTokens, ExternalIdentities, PlazaComments, PlazaLikes, SkillFiles,
              Participants, AgentTeamMembers, AgentTeamEvents}
  }

  function Ref(table: Table, row: Row, column: Column): Option<Key> {
    if column in row.columns then Some(Key(table, row.columns[column])) else None
  }

  function Parent(table: Table, row: Row): Option<Key> {
    match table
    case Notifications | RefreshTokens | ExternalIdentities => Ref(Users, row, UserId)
    case PlazaComments | PlazaLikes => Ref(PlazaPosts, row, PostId)
    case SkillFiles => Ref(Skills, row, SkillId)
    case Participants =>
      if Is(row, Type, "user") then Ref(Users, row, RefId)
      else if Is(row, Type, "agent") then Ref(Agents, row, RefId)
      else None
    case AgentTeamMembers | AgentTeamEvents => Ref(AgentTeams, row, TeamId)
    case _ => None
  }

  /** USING of a table that is not derived. */
  predicate PlainUsing(s: Setting, key: Key, row: Row) {
    match key.table
    case Tenants => Bypass(s) || s == Some(key.id)
    case FeatureFlags => true
    case SystemSettings => Bypass(s) || key.id !in SECRET_SETTINGS
    case Identities => Bypass(s)
    case _ => Bypass(s) || Owns(s, row.tenant) || PlatformShared(key.table, row)
  }

  /**
   The EXISTS subquery of a derived policy. It runs under the parent table's own policy; a skill
   file may also be read through a built-in skill.
   */
  predicate ParentAdmits(db: Db, s: Setting, parent: Option<Key>, orShared: bool) {
    && parent.Some? && parent.value in db
    && PlainUsing(s, parent.value, db[parent.value])
    && (Owns(s, db[parent.value].tenant) || (orShared && PlatformShared(parent.value.table, db[parent.value])))
  }

  predicate Using(db: Db, s: Setting, key: Key, row: Row) {
    if Derived(key.table) then Bypass(s) || ParentAdmits(db, s, Parent(key.table, row), key.table.SkillFiles?)
    else PlainUsing(s, key, row)
  }

  predicate Check(db: Db, s: Setting, key: Key, row: Row) {
    if Derived(key.table) then Bypass(s) || ParentAdmits(db, s, Parent(key.table, row), false)
    else if key.table in {Tenants, FeatureFlags, SystemSettings, Identities} then PlainUsing(s, key, row)
    else Bypass(s) || Owns(s, row.tenant)
  }

  /* ---- Ownership, said without policies ---- */

  /** The text of a column, None for NULL. */
  function Cell(row: Row, column: Column): Option<string> {
    if column in row.columns then Some(row.columns[column]) else None
  }

  /** The tenant of the row whose identifier stands in a column. */
  function TenantAt(db: Db, table: Table, id: Option<string>): Option<string> {
    if id.Some? && Key(table, id.value) in db then db[Key(table, id.value)].tenant else None
  }

  /** Whose row it is: a tenant is its own, some rows are their user's, post's, skill's, agent's or team's. */
  function Owner(db: Db, key: Key, row: Row): Option<string> {
    match key.table
    case Tenants => Some(key.id)
    case FeatureFlags => None
    case SystemSettings => None
    case Identities => None
    case Notifications => TenantAt(db, Users, Cell(row, UserId))
    case RefreshTokens => TenantAt(db, Users, Cell(row, UserId))
    case ExternalIdentities => TenantAt(db, Users, Cell(row, UserId))
    case PlazaComments => TenantAt(db, PlazaPosts, Cell(row, PostId))
    case PlazaLikes => TenantAt(db, PlazaPosts, Cell(row, PostId))
    case SkillFiles => TenantAt(db, Skills, Cell(row, SkillId))
    case AgentTeamMembers => TenantAt(db, AgentTeams, Cell(row, TeamId))
    case AgentTeamEvents => TenantAt(db, AgentTeams, Cell(row, TeamId))
    case Participants =>
      if Cell(row, Type) == Some("user") then TenantAt(db, Users, Cell(row, RefId))
      else if Cell(row, Type) == Some("agent") then TenantAt(db, Agents, Cell(row, RefId))
      else None
    case _ => row.tenant
  }

  /** The platform's own rows that it shows to every tenant, table by table. */
  predicate PlatformOwn(key: Key, row: Row) {
    && row.tenant == None
    && (|| (key.table == AgentTemplates && Cell(row, IsBuiltin) == Some("true"))
        || key.table == IdentityProviders
        || key.table == LlmModels
        || (key.table == RuntimeBudgetPolicies && Cell(row, ScopeType) == Some("platform_default"))
        || (key.table == Skills && Cell(row, IsBuiltin) == Some("true"))
        || (key.table == Tools && Cell(row, Type) == Some("builtin"))
        || (key.table == WorkflowDefinitions
            && Cell(row, VisibilityScope) == Some("platform") && Cell(row, OwnerType) == Some("platform")))
  }

  /** A setting that holds no secret. */
  predicate OpenSetting(key: Key) {
    && key.table == SystemSettings
    && key.id != "jina_api_key" && key.id != "tavily_api_key" && key.id != "exa_api_key" && key.id != "firecrawl_api_key"
  }

  /** The file of a built-in skill. */
  predicate BuiltinFile(db: Db, key: Key, row: Row) {
    && key.table == SkillFiles && SkillId in row.columns
    && var skill := Key(Skills, row.columns[SkillId]);
    skill in db && PlatformOwn(skill, db[skill])
  }

  /** What the platform shows to every tenant. */
  predicate Public(db: Db, key: Key, row: Row) {
    key.table == FeatureFlags || OpenSetting(key) || PlatformOwn(key, row) || BuiltinFile(db, key, row)
  }

  lemma SharedExactly(key: Key, row: Row)
    ensures PlatformShared(key.table, row) <==> PlatformOwn(key, row)
  {
  }

  lemma OwnedThroughParent(db: Db, key: Key, row: Row)
    requires Derived(key.table)
    ensures Owner(db, key, row)
            == var parent := Parent(key.table, row);
               if parent.Some? && parent.value in db then db[parent.value].tenant else None
    ensures Parent(key.table, row).Some? ==> Parent(key.table, row).value.table in {Users, PlazaPosts, Skills, Agents, AgentTeams}
    ensures key.table.SkillFiles? && SkillId in row.columns ==>
              Parent(key.table, row) == Some(Key(Skills, row.columns[SkillId]))
  {
  }

  lemma DerivedReads(db: Db, s: Setting, key: Key, row: Row)
    requires Derived(key.table) && !Bypass(s)
    ensures Using(db, s, key, row) <==>
              || (Owner(db, key, row).Some? && Owner(db, key, row) == s)
              || BuiltinFile(db, key, row)
    ensures Check(db, s, key, row) <==> Owner(db, key, row).Some? && Owner(db, key, row) == s
  {
    OwnedThroughParent(db, key, row);
    var parent := Parent(key.table, row);
    if parent.Some? && parent.value in db { SharedExactly(parent.value, db[parent.value]); }
  }

  lemma PlainReads(db: Db, s: Setting, key: Key, row: Row)
    requires !Derived(key.table) && !Bypass(s)
    ensures Using(db, s, key, row)
            <==> (Owner(db, key, row).Some? && Owner(db, key, row) == s) || Public(db, key, row)
    ensures Check(db, s, key, row)
            <==> (Owner(db, key, row).Some? && Owner(db, key, row) == s) || key.table == FeatureFlags || OpenSetting(key)
  {
    SharedExactly(key, row);
  }

  /** A tenant's session reads exactly the rows the tenant owns and the public ones. */
  lemma ReadsOwnAndPublic(db: Db, tenant: TenantId, key: Key, row: Row)
    ensures Using(db, Some(tenant), key, row) <==> Owner(db, key, row) == Some(tenant) || Public(db, key, row)
  {
    if Derived(key.table) { DerivedReads(db, Some(tenant), key, row); } else { PlainReads(db, Some(tenant), key, row); }
  }

  /** It writes only rows it owns afterwards; besides those, flags and settings that are not secret. */
  lemma WritesOwn(db: Db, tenant: TenantId, key: Key, row: Row)
    ensures Check(db, Some(tenant), key, row)
            <==> || Owner(db, key, row) == Some(tenant)
                 || key.table == FeatureFlags || OpenSetting(key)
  {
    if Derived(key.table) { DerivedReads(db, Some(tenant), key, row); } else { PlainReads(db, Some(tenant), key, row); }
  }

  /** No row is owned by the empty text. */
  lemma NobodyIsEmpty(db: Db, key: Key, row: Row)
    requires key.id != ""
    ensures Owner(db, key, row) != Some("")
  {
  }

  /** Without a scope, or with the empty one, no tenant's row is readable; BYPASS reads everything. */
  lemma UnscopedReadsPublicOnly(db: Db, s: Setting, key: Key, row: Row)
    requires s == None || s == Some("")
    requires key.id != ""
    ensures Using(db, s, key, row) <==> Public(db, key, row)
  {
    NobodyIsEmpty(db, key, row);
    if Derived(key.table) { DerivedReads(db, s, key, row); } else { PlainReads(db, s, key, row); }
  }

  lemma BypassAdmitsEverything(db: Db, key: Key, row: Row)
    ensures Using(db, Some("BYPASS"), key, row) && Check(db, Some("BYPASS"), key, row)
  {
  }

  /** System records, the rows without a tenant of all other tables, are never a tenant's to read. */
  lemma SystemRecordsAreHidden(db: Db, tenant: TenantId, key: Key, row: Row)
    requires key.table in {AuditLogs, Users, Agents, AgentTeams, PlazaPosts} || key.table.OtherStrict?
    requires row.tenant == None
    ensures !Using(db, Some(tenant), key, row) && !Check(db, Some(tenant), key, row)
  {
    ReadsOwnAndPublic(db, tenant, key, row);
    WritesOwn(db, tenant, key, row);
  }

  /* ---- Statements ---- */

  /** The rows a statement can see. */
  function View(db: Db, s: Setting): Db {
    map key | key in db && Using(db, s, key, db[key]) :: db[key]
  }

  /** What a statement computes it computes from the visible rows, its WHERE clause included. */
  datatype Op =
    | Insert(key: Key, make: Db -> Row)
    | Update(table: Table, pick: (Db, Key) -> bool, change: (Db, Key) -> Row)
    | Delete(table: Table, pick: (Db, Key) -> bool)

  datatype Outcome = Done(rows: set<Key>) | UniqueViolation | PolicyViolation

  function Targets(view: Db, op: Op): set<Key>
    requires !op.Insert?
  {
    set key | key in view && key.table == op.table && op.pick(view, key)
  }

  predicate AllPass(db: Db, s: Setting, view: Db, op: Op)
    requires op.Update?
  {
    forall key :: key in Targets(view, op) ==> Check(db, s, key, op.change(view, key))
  }

  /** The check of the new rows comes before the unique index is touched. */
  function Result(db: Db, s: Setting, op: Op): Outcome {
    var view := View(db, s);
    match op
    case Insert(key, make) =>
      if !Check(db, s, key, make(view)) then PolicyViolation
      else if key in db then UniqueViolation
      else Done({key})
    case Update(_, _, _) => if AllPass(db, s, view, op) then Done(Targets(view, op)) else PolicyViolation
    case Delete(_, _) => Done(Targets(view, op))
  }

  /** A statement that fails changes nothing. */
  function Next(db: Db, s: Setting, op: Op): Db {
    var view := View(db, s);
    if !Result(db, s, op).Done? then db
    else
      match op
      case Insert(key, make) => db[key := make(view)]
      case Update(_, _, change) =>
        map key | key in db :: if key in Targets(view, op) then change(view, key) else db[key]
      case Delete(_, _) => map key | key in db && key !in Targets(view, op) :: db[key]
  }

  /** The rows a statement is about: those it sees of its table that its WHERE clause picks. */
  predicate About(db: Db, s: Setting, op: Op, key: Key)
    requires !op.Insert?
  {
    key in db && Using(db, s, key, db[key]) && key.table == op.table && op.pick(View(db, s), key)
  }

  /** An insert adds its one row, unless the row is not the session's to write or its identifier is taken. */
  lemma InsertEffect(db: Db, s: Setting, op: Op)
    requires op.Insert?
    ensures Result(db, s, op).Done? <==> Check(db, s, op.key, op.make(View(db, s))) && op.key !in db
    ensures Next(db, s, op) == if Result(db, s, op).Done? then db[op.key := op.make(View(db, s))] else db
  {
  }

  /** An update changes the rows it is about and no others, or, if one of them may not become what it would, none. */
  lemma UpdateEffect(db: Db, s: Setting, op: Op)
    requires op.Update?
    ensures Result(db, s, op).Done?
            <==> forall key :: About(db, s, op, key) ==> Check(db, s, key, op.change(View(db, s), key))
    ensures var next := Next(db, s, op);
            forall key :: && (key in next <==> key in db)
                          && (key in db ==> next[key] == if Result(db, s, op).Done? && About(db, s, op, key)
                                                         then op.change(View(db, s), key) else db[key])
  {
    forall key ensures About(db, s, op, key) <==> key in Targets(View(db, s), op) {
    }
  }

  /** A delete removes the rows it is about and no others. */
  lemma DeleteEffect(db: Db, s: Setting, op: Op)
    requires op.Delete?
    ensures Result(db, s, op).Done?
    ensures var next := Next(db, s, op);
            forall key :: && (key in next <==> key in db && !About(db, s, op, key))
                          && (key in next ==> next[key] == db[key])
  {
  }

  /** Statements of many tenants' sessions, interleaved in any way. */
  datatype Statement = Statement(tenant: TenantId, op: Op)

  function Run(db: Db, statements: seq<Statement>): Db
    decreases |statements|
  {
    if statements == [] then db
    else Run(Next(db, Some(statements[0].tenant), statements[0].op), statements[1..])
  }

  /* ---- Integrity ---- */

  /** The rows of one tenant, those it owns through a parent row included. */
  function RowsOf(db: Db, tenant: string): Db {
    map key | key in db && Owner(db, key, db[key]) == Some(tenant) :: db[key]
  }

  /** What a statement writes is there afterwards and passes the check, what it deletes is gone. */
  lemma WrittenRowPasses(db: Db, s: Setting, op: Op, key: Key)
    requires Result(db, s, op).Done? && key in Result(db, s, op).rows
    ensures !op.Delete? ==> key in Next(db, s, op) && Check(db, s, key, Next(db, s, op)[key])
    ensures op.Delete? ==> key !in Next(db, s, op)
    ensures if op.Insert? then key !in db else key in db && Using(db, s, key, db[key])
  {
  }

  /** A row this statement writes does not belong to another tenant before. */
  lemma WrittenRowIsNotTheirs(db: Db, tenant: TenantId, op: Op, other: string, key: Key)
    requires other != tenant && Result(db, Some(tenant), op).Done? && key in Result(db, Some(tenant), op).rows
    ensures key in db ==> Owner(db, key, db[key]) != Some(other)
    ensures !op.Delete? ==> key in Next(db, Some(tenant), op)
    ensures op.Delete? ==> key !in Next(db, Some(tenant), op)
    ensures !op.Delete? ==> Check(db, Some(tenant), key, Next(db, Some(tenant), op)[key])
  {
    WrittenRowPasses(db, Some(tenant), op, key);
    if !op.Insert? { SeenIsNotTheirs(db, tenant, other, key, db[key]); }
  }

  /** A row a tenant sees is not another tenant's. */
  lemma SeenIsNotTheirs(db: Db, tenant: TenantId, other: string, key: Key, row: Row)
    requires other != tenant && Using(db, Some(tenant), key, row)
    ensures Owner(db, key, row) != Some(other)
  {
    ReadsOwnAndPublic(db, tenant, key, row);
  }

  lemma OtherRowsStay(db: Db, s: Setting, op: Op, key: Key)
    requires !(Result(db, s, op).Done? && key in Result(db, s, op).rows)
    ensures key in Next(db, s, op) <==> key in db
    ensures key in db ==> Next(db, s, op)[key] == db[key]
  {
  }

  /** A row of a table with a tenant column is another tenant's after the statement exactly when it was before. */
  lemma StepKeepsParent(db: Db, tenant: TenantId, op: Op, other: string, parent: Key)
    requires other != tenant && parent.table in {Users, Agents, AgentTeams, PlazaPosts, Skills}
    ensures (parent in db && db[parent].tenant == Some(other))
            <==> (parent in Next(db, Some(tenant), op) && Next(db, Some(tenant), op)[parent].tenant == Some(other))
  {
    if Result(db, Some(tenant), op).Done? && parent in Result(db, Some(tenant), op).rows {
      WrittenRowIsNotTheirs(db, tenant, op, other, parent);
    } else {
      OtherRowsStay(db, Some(tenant), op, parent);
    }
  }

  /** The owner of a row another tenant owns, before or after, is the same after as before. */
  lemma StepKeepsOwner(db: Db, tenant: TenantId, op: Op, other: string, key: Key, row: Row)
    requires other != tenant
    ensures Owner(db, key, row) == Some(other) <==> Owner(Next(db, Some(tenant), op), key, row) == Some(other)
  {
    if Derived(key.table) && Parent(key.table, row).Some? {
      StepKeepsParent(db, tenant, op, other, Parent(key.table, row).value);
    }
  }

  /** Two databases have the same row under a key, or both none. */
  predicate SameAt(a: Db, b: Db, key: Key) {
    (key in a <==> key in b) && (key in a ==> a[key] == b[key])
  }

  lemma SameEverywhere(a: Db, b: Db)
    requires forall key :: SameAt(a, b, key)
    ensures a == b
  {
    forall key ensures key in a <==> key in b { assert SameAt(a, b, key); }
    forall key | key in a ensures a[key] == b[key] { assert SameAt(a, b, key); }
  }

  lemma WrittenIsNotTheirs(db: Db, tenant: TenantId, op: Op, other: string, key: Key)
    requires other != tenant && Result(db, Some(tenant), op).Done? && key in Result(db, Some(tenant), op).rows
    ensures key !in RowsOf(db, other) && key !in RowsOf(Next(db, Some(tenant), op), other)
  {
    var next := Next(db, Some(tenant), op);
    WrittenRowIsNotTheirs(db, tenant, op, other, key);
    if key in next {
      WritesOwn(db, tenant, key, next[key]);
      StepKeepsOwner(db, tenant, op, other, key, next[key]);
    }
  }

  lemma StepKeepsTheirRow(db: Db, tenant: TenantId, op: Op, other: string, key: Key)
    requires other != tenant
    ensures SameAt(RowsOf(db, other), RowsOf(Next(db, Some(tenant), op), other), key)
  {
    if Result(db, Some(tenant), op).Done? && key in Result(db, Some(tenant), op).rows {
      WrittenIsNotTheirs(db, tenant, op, other, key);
    } else {
      OtherRowsStay(db, Some(tenant), op, key);
      if key in db { StepKeepsOwner(db, tenant, op, other, key, db[key]); }
    }
  }

  lemma StepKeepsTheirRows(db: Db, tenant: TenantId, op: Op, other: string)
    requires other != tenant
    ensures RowsOf(Next(db, Some(tenant), op), other) == RowsOf(db, other)
  {
    var theirs, after := RowsOf(db, other), RowsOf(Next(db, Some(tenant), op), other);
    forall key ensures SameAt(theirs, after, key) { StepKeepsTheirRow(db, tenant, op, other, key); }
    SameEverywhere(theirs, after);
  }

  /** Whatever the sessions of other tenants do, a tenant ends with exactly the rows it had. */
  lemma {:induction false} RunsKeepTheirRows(db: Db, statements: seq<Statement>, other: string)
    requires forall i :: 0 <= i < |statements| ==> statements[i].tenant != other
    ensures RowsOf(Run(db, statements), other) == RowsOf(db, other)
    decreases |statements|
  {
    if statements != [] {
      StepKeepsTheirRows(db, statements[0].tenant, statements[0].op, other);
      RunsKeepTheirRows(Next(db, Some(statements[0].tenant), statements[0].op), statements[1..], other);
    }
  }

  /* ---- Confidentiality ---- */

  predicate Hidden(db: Db, s: Setting, key: Key) {
    key in db && !Using(db, s, key, db[key])
  }

  /** An insert that the write check lets through, for an identifier that a hidden row already has. */
  predicate Taken(db: Db, s: Setting, op: Op) {
    op.Insert? && Check(db, s, op.key, op.make(View(db, s))) && Hidden(db, s, op.key)
  }

  /** One for an identifier that is free, but that a hidden row without a parent refers to. */
  predicate Awaited(db: Db, s: Setting, op: Op) {
    && op.Insert? && Check(db, s, op.key, op.make(View(db, s))) && op.key !in db
    && exists key :: key in db && Hidden(db, s, key) && Parent(key.table, db[key]) == Some(op.key)
  }

  predicate Unclaimed(db: Db, s: Setting, op: Op) {
    !Taken(db, s, op) && !Awaited(db, s, op)
  }

  /** `part` holds rows of `db`, and what it leaves out is hidden in `db`. */
  ghost predicate HidesTheRest(part: Db, db: Db, s: Setting) {
    && (forall key :: key in part ==> key in db && db[key] == part[key])
    && (forall key :: key in db && key !in part ==> !Using(db, s, key, db[key]))
  }

  /** The setting is a tenant's UUID. */
  predicate Scoped(s: Setting) {
    s.Some? && |s.value| == 36
  }

  /** Whether a row may be read or written depends only on the rows the session can see. */
  lemma PolicySeesThePart(part: Db, db: Db, s: Setting, key: Key, row: Row)
    requires Scoped(s) && HidesTheRest(part, db, s)
    ensures Using(db, s, key, row) == Using(part, s, key, row)
    ensures Check(db, s, key, row) == Check(part, s, key, row)
  {
    if Derived(key.table) && Parent(key.table, row).Some? {
      var parent := Parent(key.table, row).value;
      if parent in db && parent !in part {
        assert !Using(db, s, parent, db[parent]);
      }
    }
  }

  lemma ViewOfPart(part: Db, db: Db, s: Setting)
    requires Scoped(s) && HidesTheRest(part, db, s)
    ensures View(part, s) == View(db, s)
  {
    forall key ensures key in View(part, s) <==> key in View(db, s) {
      if key in part { PolicySeesThePart(part, db, s, key, part[key]); }
    }
  }

  lemma ViewHidesTheRest(db: Db, s: Setting)
    ensures HidesTheRest(View(db, s), db, s)
  {
  }

  /** The outcome of a statement tells of hidden rows exactly when it inserts an identifier of theirs. */
  lemma ResultTellsExactly(db: Db, s: Setting, op: Op)
    requires Scoped(s)
    ensures Result(View(db, s), s, op) == Result(db, s, op) <==> !Taken(db, s, op)
  {
    var view := View(db, s);
    ViewHidesTheRest(db, s);
    ViewOfPart(view, db, s);
    forall key, row ensures Check(view, s, key, row) == Check(db, s, key, row) {
      PolicySeesThePart(view, db, s, key, row);
    }
  }

  /** A hidden row's parent, if it has one, is hidden too, and this statement does not make it one. */
  lemma ParentStaysAway(db: Db, s: Setting, op: Op, key: Key, parent: Key)
    requires Scoped(s) && Unclaimed(db, s, op) && key in db && !Using(db, s, key, db[key])
    requires Derived(key.table) && Parent(key.table, db[key]) == Some(parent)
    ensures !(Result(db, s, op).Done? && parent in Result(db, s, op).rows)
  {
    assert key !in View(db, s);
    assert parent !in View(db, s);
    if op.Insert? && Result(db, s, op).Done? && parent == op.key { assert Hidden(db, s, key); }
  }

  /** A hidden row stays hidden: nothing the statement writes is or becomes a parent that shows it. */
  lemma HiddenStaysHidden(db: Db, s: Setting, op: Op, key: Key)
    requires Scoped(s) && Unclaimed(db, s, op) && key in db && !Using(db, s, key, db[key])
    ensures key in Next(db, s, op) && Next(db, s, op)[key] == db[key]
    ensures !Using(Next(db, s, op), s, key, db[key])
  {
    assert key !in View(db, s);
    OtherRowsStay(db, s, op, key);
    if Derived(key.table) && Parent(key.table, db[key]).Some? {
      var parent := Parent(key.table, db[key]).value;
      ParentStaysAway(db, s, op, key, parent);
      OtherRowsStay(db, s, op, parent);
    }
  }

  /** A statement acts on the visible rows as if they were the whole database. */
  lemma StepInView(db: Db, s: Setting, op: Op)
    requires Scoped(s) && Unclaimed(db, s, op)
    ensures Result(View(db, s), s, op) == Result(db, s, op)
    ensures View(Next(View(db, s), s, op), s) == View(Next(db, s, op), s)
  {
    var view := View(db, s);
    var part, next := Next(view, s, op), Next(db, s, op);
    ResultTellsExactly(db, s, op);
    ViewHidesTheRest(db, s);
    ViewOfPart(view, db, s);
    forall key ensures key in part ==> key in next && next[key] == part[key] {
    }
    forall key | key in next && key !in part ensures !Using(next, s, key, next[key]) {
      HiddenStaysHidden(db, s, op, key);
    }
    ViewOfPart(part, next, s);
  }

  /** What a session sees before each statement, and how the statement ends. */
  function Observed(db: Db, s: Setting, ops: seq<Op>): seq<(Db, Outcome)>
    decreases |ops|
  {
    if ops == [] then [(View(db, s), Done({}))]
    else [(View(db, s), Result(db, s, ops[0]))] + Observed(Next(db, s, ops[0]), s, ops[1..])
  }

  ghost predicate UnclaimedRun(db: Db, s: Setting, ops: seq<Op>)
    decreases |ops|
  {
    ops == [] || (Unclaimed(db, s, ops[0]) && UnclaimedRun(Next(db, s, ops[0]), s, ops[1..]))
  }

  /**
   Two databases that agree on a tenant's own and the public rows cannot be told apart by any run of
   the tenant's session, however the rows of other tenants differ.
   */
  lemma {:induction false} RunsObserveOwnAndPublic(db: Db, twin: Db, s: Setting, ops: seq<Op>)
    requires Scoped(s) && View(db, s) == View(twin, s)
    requires UnclaimedRun(db, s, ops) && UnclaimedRun(twin, s, ops)
    ensures Observed(db, s, ops) == Observed(twin, s, ops)
    decreases |ops|
  {
    if ops != [] {
      StepInView(db, s, ops[0]);
      StepInView(twin, s, ops[0]);
      RunsObserveOwnAndPublic(Next(db, s, ops[0]), Next(twin, s, ops[0]), s, ops[1..]);
    }
  }

  lemma WritableIsReadable(db: Db, s: Setting, key: Key, row: Row)
    requires Scoped(s) && Check(db, s, key, row)
    ensures Using(db, s, key, row)
  {
  }

  lemma TakenShows(db: Db, s: Setting, op: Op)
    requires Scoped(s) && Taken(db, s, op)
    ensures View(Next(View(db, s), s, op), s) != View(Next(db, s, op), s)
  {
    var view := View(db, s);
    var row := op.make(view);
    ViewHidesTheRest(db, s);
    ViewOfPart(view, db, s);
    PolicySeesThePart(view, db, s, op.key, row);
    assert Next(view, s, op) == view[op.key := row] && Next(db, s, op) == db;
    WritableIsReadable(view, s, op.key, row);
    assert Using(view[op.key := row], s, op.key, row);
    assert op.key in View(Next(view, s, op), s) && op.key !in View(db, s);
  }

  lemma AwaitedShows(db: Db, s: Setting, op: Op)
    requires Scoped(s) && Awaited(db, s, op)
    ensures View(Next(View(db, s), s, op), s) != View(Next(db, s, op), s)
  {
    var view := View(db, s);
    var key :| key in db && Hidden(db, s, key) && Parent(key.table, db[key]) == Some(op.key);
    assert key !in view && key != op.key;
    assert Next(db, s, op) == db[op.key := op.make(view)];
    assert Using(Next(db, s, op), s, key, db[key]);
    assert key !in Next(view, s, op);
    assert key in View(Next(db, s, op), s) && key !in View(Next(view, s, op), s);
  }

  /**
   What a session sees after a statement tells of hidden rows in exactly two cases: the identifier it
   inserts is one of theirs, which the unique index refuses, or one of them refers to it, which then
   comes into sight under the inserted parent.
   */
  lemma StatementTellsExactly(db: Db, s: Setting, op: Op)
    requires Scoped(s)
    ensures View(Next(View(db, s), s, op), s) == View(Next(db, s, op), s) <==> Unclaimed(db, s, op)
  {
    if Taken(db, s, op) {
      TakenShows(db, s, op);
    } else if Awaited(db, s, op) {
      AwaitedShows(db, s, op);
    } else {
      StepInView(db, s, op);
    }
  }

  /* ---- Stamping new rows ---- */

  datatype Scope = NoScope | BypassScope | TenantScope(tenant: TenantId)

  /** A pending object of the unit of work: its table, whether it has a tenant attribute, its columns. */
  datatype Pending = Pending(table: Table, hasTenant: bool, row: Row)

  /** The tables of STRICT_TENANT_RLS_TABLES among those named here. */
  predicate Strict(table: Table) {
    table in {Agents, AgentTeams, PlazaPosts} || table.OtherStrict?
  }

  function Stamped(p: Pending, scope: Scope): Pending {
    if scope.TenantScope? && Strict(p.table) && p.hasTenant && p.row.tenant.None?
    then p.(row := p.row.(tenant := Some(scope.tenant)))
    else p
  }

  /** A new row that the session's tenant has yet to be put on. */
  predicate Unowned(p: Pending) {
    && (p.table == Agents || p.table == AgentTeams || p.table == PlazaPosts || p.table.OtherStrict?)
    && p.hasTenant && p.row.tenant == None
  }

  /** The before-flush hook: the pending objects are changed in place, unowned ones of strict tables only. */
  method StampNewRows(pending: array<Pending>, scope: Scope)
    modifies pending
    ensures forall i :: 0 <= i < pending.Length ==> pending[i] == Stamped(old(pending[i]), scope)
    ensures forall i :: 0 <= i < pending.Length ==>
              pending[i] == if scope.TenantScope? && Unowned(old(pending[i]))
                            then old(pending[i]).(row := old(pending[i]).row.(tenant := Some(scope.tenant)))
                            else old(pending[i])
  {
    if scope.NoScope? || scope.BypassScope? {
      return;
    }
    for i := 0 to pending.Length
      invariant forall j :: 0 <= j < i ==> pending[j] == Stamped(old(pending[j]), scope)
      invariant forall j :: i <= j < pending.Length ==> pending[j] == old(pending[j])
    {
      if !Strict(pending[i].table) {
        continue;
      }
      if pending[i].hasTenant && pending[i].row.tenant.None? {
        pending[i] := pending[i].(row := pending[i].row.(tenant := Some(scope.tenant)));
      }
    }
  }

  /** The transaction setting that goes with a session scope. */
  function SettingOf(scope: Scope): Setting {
    match scope
    case NoScope => Some("")
    case BypassScope => Some(BYPASS)
    case TenantScope(tenant) => Some(tenant)
  }

  /**
   After the hook a pending row of a strict table passes the write check of its session exactly when
   it was unowned or already the session's own; a row of another tenant is not taken over.
   */
  lemma StampedRowPasses(db: Db, p: Pending, tenant: TenantId, id: string)
    requires Strict(p.table) && p.hasTenant
    ensures Check(db, SettingOf(TenantScope(tenant)), Key(p.table, id), Stamped(p, TenantScope(tenant)).row)
            <==> p.row.tenant.None? || p.row.tenant == Some(tenant)
    ensures p.row.tenant.Some? ==> Stamped(p, TenantScope(tenant)) == p
  {
  }

  /** Exactly the unowned rows are stamped, and under a tenant's scope only. */
  lemma StampedExactly(p: Pending, scope: Scope)
    ensures Stamped(p, scope) != p <==> scope.TenantScope? && Unowned(p)
    ensures Stamped(p, scope) != p ==> Stamped(p, scope) == p.(row := p.row.(tenant := Some(scope.tenant)))
  {
  }

  /** What each session scope means for reading. */
  lemma ScopeDecides(db: Db, scope: Scope, key: Key, row: Row)
    requires key.id != ""
    ensures Using(db, SettingOf(scope), key, row)
            <==> || scope.BypassScope? || Public(db, key, row)
                 || (scope.TenantScope? && Owner(db, key, row) == Some(scope.tenant))
  {
    match scope
    case NoScope => UnscopedReadsPublicOnly(db, SettingOf(scope), key, row);
    case BypassScope => BypassAdmitsEverything(db, key, row);
    case TenantScope(tenant) => ReadsOwnAndPublic(db, tenant, key, row);
  }

  /** Without a tenant scope nothing is stamped, and an unowned strict row is refused. */
  lemma UnscopedRowIsRefused(db: Db, p: Pending, id: string)
    requires Strict(p.table) && p.row.tenant.None?
    ensures Stamped(p, NoScope) == p && !Check(db, SettingOf(NoScope), Key(p.table, id), p.row)
  {
  }
}
