/**
 Two migrations that invalidate old approvals one after the other, record in the row's details what
 they overwrote, and restore it on downgrade. The order is last in, first out.
 */
module ApprovalInvalidation {
  import opened Wrappers

  /* ---- Rows ---- */

  /** The keys the two migrations use, and all others. */
  datatype Key =
    | InvalidatedBy | InvalidatedAt | PreviousStatus | PreviousExecution | PreviousResolved
    | ReapprovalReason | AssetPreviousExecution | AssetPreviousStatus | AssetPreviousResolved
    | OtherKey(name: string)

  /** Texts: those the migrations compare with or write, the text of an instant, of a key, of a JSON value. */
  datatype Word =
    | Pending | Approved | Rejected | Queued | Executing | Succeeded | Failed | NeedsReconciliation | NeedsReapproval
    | LegacyMarker | PredatesAssetRefs
    | Instant(time: int) | KeyText(key: Key) | Rendered(json: Json) | OtherText(text: string, instant: Option<int>)

  datatype Json =
    | JNull
    | JText(word: Word)
    | JObject(fields: map<Key, Json>)
    | JArray(items: seq<Json>)
    | JScalar(repr: string)

  const STATUSES := {Pending, Approved, Rejected}
  const EXECUTIONS :=
    {Pending, Approved, Rejected, Queued, Executing, Succeeded, Failed, NeedsReconciliation, NeedsReapproval}

  datatype Row = Row(
    status: Word, execution: Word, resolved: Option<int>, details: Option<Json>,
    tool: Option<string>, envelopeSchema: Option<string>)

  /** The column types and the check constraint. */
  predicate Typed(row: Row) {
    row.status in STATUSES && row.execution in EXECUTIONS
  }

  /* ---- jsonb operators ---- */

  /** `->`; NULL where the key is missing or the value is no object. */
  function Get(j: Json, key: Key): Option<Json> {
    if j.JObject? && key in j.fields then Some(j.fields[key]) else None
  }

  /** `->>`. */
  function GetText(j: Json, key: Key): Option<Word> {
    match Get(j, key)
    case None => None
    case Some(JNull) => None
    case Some(JText(word)) => Some(word)
    case Some(other) => Some(Rendered(other))
  }

  /** `?`: a key of an object, a string element of an array, or the string itself. */
  predicate Has(j: Json, key: Key) {
    match j
    case JObject(fields) => key in fields
    case JArray(items) => JText(KeyText(key)) in items
    case JText(word) => word == KeyText(key)
    case _ => false
  }

  /** `||` with an object on the right: anything but an object becomes an array. */
  function Concat(j: Json, fields: map<Key, Json>): Json {
    match j
    case JObject(own) => JObject(own + fields)
    case JArray(items) => JArray(items + [JObject(fields)])
    case _ => JArray([j, JObject(fields)])
  }

  function Without(items: seq<Json>, keys: set<Key>): seq<Json> {
    if items == [] then []
    else
      var rest := Without(items[1..], keys);
      if items[0].JText? && items[0].word.KeyText? && items[0].word.key in keys then rest else [items[0]] + rest
  }

  /** `-` for several keys; None is the error "cannot delete from scalar". */
  function Remove(j: Json, keys: set<Key>): Option<Json> {
    match j
    case JObject(fields) => Some(JObject(fields - keys))
    case JArray(items) => Some(JArray(Without(items, keys)))
    case _ => None
  }

  function OrEmpty(details: Option<Json>): Json {
    if details.Some? then details.value else JObject(map[])
  }

  function OrNow(resolved: Option<int>, now: int): Option<int> {
    if resolved.Some? then resolved else Some(now)
  }

  function InstantJson(time: Option<int>): Json {
    if time.Some? then JText(Instant(time.value)) else JNull
  }

  /** The restored resolution time; None outside is a cast error. */
  function ReadInstant(j: Json, key: Key): Option<Option<int>> {
    match Get(j, key)
    case None => Some(None)
    case Some(JNull) => Some(None)
    case Some(JText(Instant(time))) => Some(Some(time))
    case Some(JText(OtherText(_, instant))) => if instant.Some? then Some(instant) else None
    case Some(_) => None
  }

  /* ---- The four statements, row by row; None is an error that aborts the migration ---- */

  const LEGACY_KEYS := {InvalidatedBy, InvalidatedAt, PreviousStatus, PreviousExecution, PreviousResolved}
  const ASSET_KEYS := {ReapprovalReason, AssetPreviousExecution, AssetPreviousStatus, AssetPreviousResolved}

  predicate LegacyHits(row: Row) {
    row.tool.Some? && row.envelopeSchema.None? && row.status in {Pending, Approved}
  }

  function LegacyFields(row: Row, now: int): map<Key, Json> {
    map[InvalidatedBy := JText(LegacyMarker),
        InvalidatedAt := JText(Instant(now)),
        PreviousStatus := JText(row.status),
        PreviousExecution := JText(row.execution),
        PreviousResolved := InstantJson(row.resolved)]
  }

  /** The envelope column is added empty, then every open tool approval is invalidated. */
  function LegacyUpgrade(before: Row, now: int): Row {
    var row := before.(envelopeSchema := None);
    if !LegacyHits(row) then row
    else
      Row(Rejected, NeedsReapproval, OrNow(row.resolved, now),
          Some(Concat(OrEmpty(row.details), LegacyFields(row, now))),
          row.tool, row.envelopeSchema)
  }

  predicate LegacyMarked(row: Row) {
    row.details.Some? && GetText(row.details.value, InvalidatedBy) == Some(LegacyMarker)
  }

  function LegacyDowngrade(row: Row): Option<Row> {
    if !LegacyMarked(row) then Some(row.(envelopeSchema := None))
    else
      var d := row.details.value;
      var status, execution := GetText(d, PreviousStatus), GetText(d, PreviousExecution);
      var resolved, details := ReadInstant(d, PreviousResolved), Remove(d, LEGACY_KEYS);
      if status.None? || execution.None? || resolved.None? || details.None? then None
      else
        var restored := Row(status.value, execution.value, resolved.value, details, row.tool, None);
        if Typed(restored) then Some(restored) else None
  }

  predicate BindsAssets(tool: string) {
    || tool in {"load_skill", "run_skill_tool", "spawn_subagent", "call_mcp_tool"}
    || (|tool| >= 5 && tool[..5] == "mcp__")
  }

  predicate AssetHits(row: Row) {
    && row.execution in {Pending, Approved}
    && row.tool.Some? && BindsAssets(row.tool.value)
    && row.envelopeSchema != Some("hive.approval_execution_envelope.v2")
  }

  function AssetFields(row: Row): map<Key, Json> {
    map[ReapprovalReason := JText(PredatesAssetRefs),
        AssetPreviousExecution := JText(row.execution),
        AssetPreviousStatus := JText(row.status),
        AssetPreviousResolved := InstantJson(row.resolved)]
  }

  function AssetUpgrade(row: Row, now: int): Row {
    if !AssetHits(row) then row
    else
      Row(Rejected, NeedsReapproval, OrNow(row.resolved, now),
          Some(Concat(OrEmpty(row.details), AssetFields(row))),
          row.tool, row.envelopeSchema)
  }

  predicate AssetMarked(row: Row) {
    row.execution == NeedsReapproval && row.details.Some? && Has(row.details.value, ReapprovalReason)
  }

  function OrPending(word: Option<Word>): Word {
    if word.Some? then word.value else Pending
  }

  function AssetDowngrade(row: Row): Option<Row> {
    if !AssetMarked(row) then Some(row)
    else
      var d := row.details.value;
      var resolved, details := ReadInstant(d, AssetPreviousResolved), Remove(d, ASSET_KEYS);
      if resolved.None? || details.None? then None
      else
        var restored := Row(OrPending(GetText(d, AssetPreviousStatus)), OrPending(GetText(d, AssetPreviousExecution)),
                            resolved.value, details, row.tool, row.envelopeSchema);
        if Typed(restored) then Some(restored) else None
  }

  /** Both upgrades and both downgrades. */
  function ThereAndBack(row: Row, first: int, second: int): Option<Row> {
    match AssetDowngrade(AssetUpgrade(LegacyUpgrade(row, first), second))
    case None => None
    case Some(back) => LegacyDowngrade(back)
  }

  /* ---- What each statement does to a row ---- */

  /** A document for the details: its own entries, and the given ones in place of or besides them. */
  ghost predicate Records(details: Option<Json>, after: Option<Json>, entry: map<Key, Json>) {
    after.Some?
    && match details
       case None => after.value == JObject(entry)
       case Some(JObject(own)) =>
         && after.value.JObject?
         && (forall key :: key in entry ==> key in after.value.fields && after.value.fields[key] == entry[key])
         && (forall key :: key !in entry ==> (key in after.value.fields <==> key in own)
                                             && (key in own ==> after.value.fields[key] == own[key]))
       case Some(JArray(items)) => after.value == JArray(items + [JObject(entry)])
       case Some(other) => after.value == JArray([other, JObject(entry)])
  }

  /** An invalidated approval is rejected, needs a new approval, and is resolved now if it was not before. */
  ghost predicate Invalidated(before: Row, after: Row, now: int, entry: map<Key, Json>) {
    && after.status == Rejected && after.execution == NeedsReapproval
    && after.resolved == (if before.resolved == None then Some(now) else before.resolved)
    && after.tool == before.tool && Records(before.details, after.details, entry)
  }

  function ResolvedText(row: Row): Json {
    match row.resolved
    case None => JNull
    case Some(time) => JText(Instant(time))
  }

  lemma ConcatRecords(details: Option<Json>, entry: map<Key, Json>)
    ensures Records(details, Some(Concat(OrEmpty(details), entry)), entry)
  {
    if details.None? { assert map[] + entry == entry; }
  }

  /** The first migration invalidates exactly the tool approvals that are pending or approved. */
  lemma LegacyInvalidates(row: Row, now: int)
    ensures var after := LegacyUpgrade(row, now);
            && after.envelopeSchema == None
            && (if row.tool != None && (row.status == Pending || row.status == Approved) then
                  Invalidated(row, after, now,
                    map[InvalidatedBy := JText(LegacyMarker), InvalidatedAt := JText(Instant(now)),
                        PreviousStatus := JText(row.status), PreviousExecution := JText(row.execution),
                        PreviousResolved := ResolvedText(row)])
                else after == row.(envelopeSchema := None))
  {
    ConcatRecords(row.details, LegacyFields(row, now));
  }

  /** The tools that bind assets: four by name, and all of a server. */
  ghost predicate AssetTool(tool: Option<string>) {
    || tool == Some("load_skill") || tool == Some("run_skill_tool")
    || tool == Some("spawn_subagent") || tool == Some("call_mcp_tool")
    || exists name: string :: tool == Some("mcp__" + name)
  }

  lemma AssetToolExactly(tool: string)
    ensures AssetTool(Some(tool)) <==> BindsAssets(tool)
  {
    if |tool| >= 5 && tool[..5] == "mcp__" { assert tool == "mcp__" + tool[5..]; }
    if name: string :| tool == "mcp__" + name { assert tool[..5] == "mcp__"; }
  }

  /** The second invalidates those of asset tools that are open for execution and have no envelope of the second version. */
  lemma AssetInvalidates(row: Row, now: int)
    ensures var after := AssetUpgrade(row, now);
            && after.envelopeSchema == row.envelopeSchema
            && (if && (row.execution == Pending || row.execution == Approved) && AssetTool(row.tool)
                   && row.envelopeSchema != Some("hive.approval_execution_envelope.v2") then
                  Invalidated(row, after, now,
                    map[ReapprovalReason := JText(PredatesAssetRefs), AssetPreviousExecution := JText(row.execution),
                        AssetPreviousStatus := JText(row.status), AssetPreviousResolved := ResolvedText(row)])
                else after == row)
  {
    ConcatRecords(row.details, AssetFields(row));
    if row.tool.Some? { AssetToolExactly(row.tool.value); }
  }

  /** A column value that the table accepts. */
  predicate Restorable(row: Row) {
    && row.status in {Pending, Approved, Rejected}
    && (row.execution in {Pending, Approved, Rejected, Queued, Executing, Succeeded, Failed}
        || row.execution == NeedsReconciliation || row.execution == NeedsReapproval)
  }

  /** The time recorded under a key: none, or an instant in some spelling. */
  predicate TimeAt(j: Json, key: Key, time: Option<int>) {
    if !(j.JObject? && key in j.fields) || j.fields[key].JNull? then time == None
    else
      && j.fields[key].JText? && time.Some?
      && (j.fields[key].word == Instant(time.value)
          || (j.fields[key].word.OtherText? && j.fields[key].word.instant == time))
  }

  lemma TimeExactly(j: Json, key: Key, time: Option<int>)
    ensures ReadInstant(j, key) == Some(time) <==> TimeAt(j, key, time)
  {
  }

  /** The text recorded under a key. */
  function TextAt(fields: map<Key, Json>, key: Key): Option<Word> {
    if key !in fields || fields[key] == JNull then None
    else if fields[key].JText? then Some(fields[key].word)
    else Some(Rendered(fields[key]))
  }

  /** The first migration's mark on a row. */
  predicate MarkedByLegacy(row: Row) {
    && row.details.Some? && row.details.value.JObject? && InvalidatedBy in row.details.value.fields
    && row.details.value.fields[InvalidatedBy] == JText(LegacyMarker)
  }

  /** Its downgrade restores what a marked row records, without its five entries, and leaves the others alone. */
  lemma LegacyRestores(row: Row, after: Row)
    ensures !MarkedByLegacy(row) ==>
              (LegacyDowngrade(row) == Some(after) <==> after == row.(envelopeSchema := None))
    ensures MarkedByLegacy(row) ==>
              var f := row.details.value.fields;
              (LegacyDowngrade(row) == Some(after)
               <==> && Some(after.status) == TextAt(f, PreviousStatus)
                    && Some(after.execution) == TextAt(f, PreviousExecution) && Restorable(after)
                    && TimeAt(JObject(f), PreviousResolved, after.resolved)
                    && after.details == Some(JObject(f - {InvalidatedBy, InvalidatedAt, PreviousStatus,
                                                          PreviousExecution, PreviousResolved}))
                    && after.tool == row.tool && after.envelopeSchema == None)
  {
    if row.details.Some? { TimeExactly(row.details.value, PreviousResolved, after.resolved); }
  }

  /** The second migration's mark: its key in the object, or as a text in an array, or as the text itself. */
  predicate MarkedByAssets(row: Row) {
    && row.execution == NeedsReapproval && row.details.Some?
    && match row.details.value
       case JObject(fields) => ReapprovalReason in fields
       case JArray(items) => exists i :: 0 <= i < |items| && items[i] == JText(KeyText(ReapprovalReason))
       case JText(word) => word == KeyText(ReapprovalReason)
       case JNull => false
       case JScalar(_) => false
  }

  lemma MarkedByAssetsExactly(row: Row)
    ensures MarkedByAssets(row) <==> AssetMarked(row)
  {
  }

  /** Removing keys from an array drops exactly the texts that are one of them. */
  lemma {:induction false} WithoutDrops(items: seq<Json>, keys: set<Key>, item: Json)
    ensures multiset(Without(items, keys))[item]
            == if item.JText? && item.word.KeyText? && item.word.key in keys then 0 else multiset(items)[item]
  {
    if items != [] {
      WithoutDrops(items[1..], keys, item);
      assert items == [items[0]] + items[1..];
    }
  }

  lemma {:induction false} WithoutKeepsOrder(a: seq<Json>, b: seq<Json>, keys: set<Key>)
    ensures Without(a + b, keys) == Without(a, keys) + Without(b, keys)
  {
    if a == [] {
      assert a + b == b;
    } else {
      assert (a + b)[1..] == a[1..] + b;
      WithoutKeepsOrder(a[1..], b, keys);
    }
  }

  function OrPendingText(word: Option<Word>): Word {
    match word
    case None => Pending
    case Some(w) => w
  }

  /** Its downgrade restores a marked row likewise, with `pending` where nothing is recorded. */
  lemma AssetRestores(row: Row, after: Row)
    ensures !MarkedByAssets(row) ==> (AssetDowngrade(row) == Some(after) <==> after == row)
    ensures MarkedByAssets(row) && row.details.value.JObject? ==>
              var f := row.details.value.fields;
              (AssetDowngrade(row) == Some(after)
               <==> && after.status == OrPendingText(TextAt(f, AssetPreviousStatus))
                    && after.execution == OrPendingText(TextAt(f, AssetPreviousExecution)) && Restorable(after)
                    && TimeAt(JObject(f), AssetPreviousResolved, after.resolved)
                    && after.details == Some(JObject(f - {ReapprovalReason, AssetPreviousExecution,
                                                          AssetPreviousStatus, AssetPreviousResolved}))
                    && after.tool == row.tool && after.envelopeSchema == row.envelopeSchema)
    ensures MarkedByAssets(row) && row.details.value.JArray? ==>
              (AssetDowngrade(row) == Some(after)
               <==> after == Row(Pending, Pending, None, Some(JArray(Without(row.details.value.items,
                                   {ReapprovalReason, AssetPreviousExecution, AssetPreviousStatus, AssetPreviousResolved}))),
                                 row.tool, row.envelopeSchema))
    ensures MarkedByAssets(row) && row.details.value.JText? ==> AssetDowngrade(row) == None
  {
    MarkedByAssetsExactly(row);
    if row.details.Some? { TimeExactly(row.details.value, AssetPreviousResolved, after.resolved); }
  }

  /* ---- Exactly when they undo each other ---- */

  predicate Free(details: Option<Json>, keys: set<Key>) {
    details.Some? && details.value.JObject? && details.value.fields.Keys !! keys
  }

  /**
   What can be checked of a row before the first upgrade. A row that will be invalidated must have a
   details object without the keys that are about to be used; a row that will not be must not look
   as if it had been.
   */
  predicate Undoable(row: Row) {
    if LegacyHits(row) then Free(row.details, LEGACY_KEYS + {ReapprovalReason})
    else if AssetHits(row) then Free(row.details, ASSET_KEYS) && !LegacyMarked(row)
    else !AssetMarked(row) && !LegacyMarked(row)
  }

  lemma FreeIsKept(fields: map<Key, Json>, added: map<Key, Json>, keys: set<Key>)
    requires added.Keys == keys
    ensures (fields + added) - keys == fields <==> fields.Keys !! keys
  {
    if fields.Keys !! keys {
      assert (fields + added) - keys == fields;
    } else {
      var key :| key in fields && key in keys;
      assert key !in (fields + added) - keys;
    }
  }

  lemma {:induction false} WithoutHasNone(items: seq<Json>, keys: set<Key>, key: Key)
    requires key in keys
    ensures JText(KeyText(key)) !in Without(items, keys)
  {
    if items != [] { WithoutHasNone(items[1..], keys, key); }
  }

  /** What an invalidation wrote, the downgrade of the same migration takes away; what it wrote over is lost. */
  lemma RemoveUndoesConcat(details: Option<Json>, added: map<Key, Json>, keys: set<Key>)
    requires added.Keys == keys
    requires details.None? || details.value.JObject?
    ensures Remove(Concat(OrEmpty(details), added), keys) == details <==> Free(details, keys)
  {
    match details
    case None => assert map[] + added == added;
    case Some(d) => FreeIsKept(d.fields, added, keys);
  }

  /** Details that are no object are never put back: an array remains, and it still holds what was added. */
  lemma ArraysAreNotUndone(d: Json, added: map<Key, Json>, keys: set<Key>, key: Key)
    requires !d.JObject? && key in keys
    ensures Concat(d, added) != d && !Concat(d, added).JObject?
    ensures Has(Concat(d, added), key) ==> Remove(Concat(d, added), keys) != Some(d)
  {
    if d.JArray? {
      assert |d.items + [JObject(added)]| == |d.items| + 1;
      if Has(Concat(d, added), key) {
        WithoutHasNone(d.items + [JObject(added)], keys, key);
        assert JText(KeyText(key)) in d.items;
      }
    }
  }

  /** The asset migration and its downgrade, on a row it hits. */
  lemma AssetRowUndone(row: Row, now: int)
    requires Typed(row) && AssetHits(row)
    ensures AssetDowngrade(AssetUpgrade(row, now)) == Some(row) <==> Free(row.details, ASSET_KEYS)
  {
    var added := AssetFields(row);
    assert added.Keys == ASSET_KEYS;
    if row.details.Some? && !row.details.value.JObject? {
      ArraysAreNotUndone(row.details.value, added, ASSET_KEYS, ReapprovalReason);
    } else {
      RemoveUndoesConcat(row.details, added, ASSET_KEYS);
    }
  }

  lemma RemovedIsGone(d: Json, keys: set<Key>, key: Key)
    requires key in keys && Remove(d, keys).Some?
    ensures !Has(Remove(d, keys).value, key)
  {
    if d.JArray? { WithoutHasNone(d.items, keys, key); }
  }

  /** No downgrade puts a key back. */
  lemma DowngradesAddNoKey(row: Row, key: Key)
    requires row.details.Some? && !Has(row.details.value, key)
    ensures LegacyDowngrade(row).Some? ==>
              LegacyDowngrade(row).value.details.Some? && !Has(LegacyDowngrade(row).value.details.value, key)
  {
  }

  /** A row that already looks invalidated by the asset migration comes back without its mark. */
  lemma AssetMarkIsLost(row: Row)
    requires AssetMarked(row) && AssetDowngrade(row).Some?
    ensures LegacyDowngrade(AssetDowngrade(row).value).Some? ==>
              LegacyDowngrade(AssetDowngrade(row).value).value.details != row.details
  {
    RemovedIsGone(row.details.value, ASSET_KEYS, ReapprovalReason);
    DowngradesAddNoKey(AssetDowngrade(row).value, ReapprovalReason);
  }

  lemma LegacyRow(row: Row, first: int, second: int)
    requires Typed(row) && row.envelopeSchema.None? && LegacyHits(row)
    ensures ThereAndBack(row, first, second) == Some(row) <==> Undoable(row)
  {
    var added := LegacyFields(row, first);
    assert added.Keys == LEGACY_KEYS;
    var up := LegacyUpgrade(row, first);
    assert AssetUpgrade(up, second) == up;
    if row.details.Some? && !row.details.value.JObject? {
      ArraysAreNotUndone(row.details.value, added, ASSET_KEYS, ReapprovalReason);
    } else {
      RemoveUndoesConcat(row.details, added, LEGACY_KEYS);
      if AssetMarked(up) && AssetDowngrade(up).Some? {
        assert row.details.Some? && Has(row.details.value, ReapprovalReason);
        RemovedIsGone(up.details.value, ASSET_KEYS, ReapprovalReason);
        DowngradesAddNoKey(AssetDowngrade(up).value, ReapprovalReason);
      }
    }
  }

  lemma AssetRow(row: Row, first: int, second: int)
    requires Typed(row) && row.envelopeSchema.None? && !LegacyHits(row) && AssetHits(row)
    ensures ThereAndBack(row, first, second) == Some(row) <==> Undoable(row)
  {
    assert LegacyUpgrade(row, first) == row;
    AssetRowUndone(row, second);
    var added := AssetFields(row);
    assert added.Keys == ASSET_KEYS;
    var up := AssetUpgrade(row, second);
    if Free(row.details, ASSET_KEYS) {
      if LegacyMarked(row) { RemovedIsGone(row.details.value, LEGACY_KEYS, InvalidatedBy); }
    } else if AssetDowngrade(up).Some? {
      var back := AssetDowngrade(up).value;
      if row.details.None? {
        RemoveUndoesConcat(row.details, added, ASSET_KEYS);
        assert back.details.value.fields == map[];
      } else if row.details.value.JObject? {
        var key :| key in row.details.value.fields && key in ASSET_KEYS;
        RemovedIsGone(up.details.value, ASSET_KEYS, key);
        DowngradesAddNoKey(back, key);
      } else {
        ArraysAreNotUndone(row.details.value, added, ASSET_KEYS, ReapprovalReason);
      }
    }
  }

  lemma OtherRow(row: Row, first: int, second: int)
    requires Typed(row) && row.envelopeSchema.None? && !LegacyHits(row) && !AssetHits(row)
    ensures ThereAndBack(row, first, second) == Some(row) <==> Undoable(row)
  {
    assert AssetUpgrade(LegacyUpgrade(row, first), second) == row;
    if AssetMarked(row) {
      if AssetDowngrade(row).Some? { AssetMarkIsLost(row); }
    } else if LegacyMarked(row) {
      RemovedIsGone(row.details.value, LEGACY_KEYS, InvalidatedBy);
    }
  }

  /* ---- Whole tables ---- */

  type Table = map<int, Row>

  function UpgradeLegacy(table: Table, now: int): Table {
    map id | id in table :: LegacyUpgrade(table[id], now)
  }

  function UpgradeAssets(table: Table, now: int): Table {
    map id | id in table :: AssetUpgrade(table[id], now)
  }

  /** One row's error aborts the whole statement. */
  function DowngradeAssets(table: Table): Option<Table> {
    if forall id :: id in table ==> AssetDowngrade(table[id]).Some?
    then Some(map id | id in table :: AssetDowngrade(table[id]).value)
    else None
  }

  function DowngradeLegacy(table: Table): Option<Table> {
    if forall id :: id in table ==> LegacyDowngrade(table[id]).Some?
    then Some(map id | id in table :: LegacyDowngrade(table[id]).value)
    else None
  }

  function ThereAndBackAll(table: Table, first: int, second: int): Option<Table> {
    match DowngradeAssets(UpgradeAssets(UpgradeLegacy(table, first), second))
    case None => None
    case Some(back) => DowngradeLegacy(back)
  }

  /** The table the migrations change in place; a downgrade that raises changes nothing. */
  class Approvals {
    var rows: Table

    constructor (rows: Table)
      ensures this.rows == rows
    {
      this.rows := rows;
    }

    method InvalidateLegacy(now: int)
      modifies this
      ensures rows == UpgradeLegacy(old(rows), now)
    {
      rows := map id | id in rows :: LegacyUpgrade(rows[id], now);
    }

    method InvalidateUnboundAssets(now: int)
      modifies this
      ensures rows == UpgradeAssets(old(rows), now)
    {
      rows := map id | id in rows :: AssetUpgrade(rows[id], now);
    }

    method RestoreUnboundAssets() returns (raised: bool)
      modifies this
      ensures raised <==> DowngradeAssets(old(rows)).None?
      ensures rows == if raised then old(rows) else DowngradeAssets(old(rows)).value
    {
      var restored := DowngradeAssets(rows);
      if restored.Some? {
        rows := restored.value;
      }
      return restored.None?;
    }

    method RestoreLegacy() returns (raised: bool)
      modifies this
      ensures raised <==> DowngradeLegacy(old(rows)).None?
      ensures rows == if raised then old(rows) else DowngradeLegacy(old(rows)).value
    {
      var restored := DowngradeLegacy(rows);
      if restored.Some? {
        rows := restored.value;
      }
      return restored.None?;
    }

    /** Up twice, down twice: a table all of whose rows pass the check is as it was. */
    method UpAndDown(first: int, second: int) returns (raised: bool)
      requires forall id :: id in rows ==> Typed(rows[id]) && rows[id].envelopeSchema.None?
      modifies this
      ensures (forall id :: id in old(rows) ==> Undoable(old(rows)[id])) <==> !raised && rows == old(rows)
    {
      ghost var before := rows;
      UndoneExactly(before, first, second);
      InvalidateLegacy(first);
      InvalidateUnboundAssets(second);
      raised := RestoreUnboundAssets();
      if !raised {
        raised := RestoreLegacy();
      }
    }
  }

  /**
   The two downgrades undo the two upgrades, in every column of every row, exactly when every row of
   the table passes the check.
   */
  lemma UndoneExactly(table: Table, first: int, second: int)
    requires forall id :: id in table ==> Typed(table[id]) && table[id].envelopeSchema.None?
    ensures ThereAndBackAll(table, first, second) == Some(table) <==> forall id :: id in table ==> Undoable(table[id])
  {
    RowByRow(table, first, second);
    forall id | id in table
      ensures ThereAndBack(table[id], first, second) == Some(table[id]) <==> Undoable(table[id])
    {
      if LegacyHits(table[id]) {
        LegacyRow(table[id], first, second);
      } else if AssetHits(table[id]) {
        AssetRow(table[id], first, second);
      } else {
        OtherRow(table[id], first, second);
      }
    }
  }

  lemma RowByRow(table: Table, first: int, second: int)
    ensures ThereAndBackAll(table, first, second) == Some(table)
            <==> forall id :: id in table ==> ThereAndBack(table[id], first, second) == Some(table[id])
  {
    var up := UpgradeAssets(UpgradeLegacy(table, first), second);
    if forall id :: id in table ==> ThereAndBack(table[id], first, second) == Some(table[id]) {
      forall id | id in table ensures AssetDowngrade(up[id]).Some? {
        assert ThereAndBack(table[id], first, second) == Some(table[id]);
      }
      var back := DowngradeAssets(up).value;
      forall id | id in table ensures LegacyDowngrade(back[id]) == Some(table[id]) {
        assert ThereAndBack(table[id], first, second) == Some(table[id]);
      }
      assert DowngradeLegacy(back).value == table;
    }
  }

  /** Rows the upgrades do not hit are the same at every stage. */
  lemma UntouchedAtEveryStage(row: Row, first: int, second: int)
    requires row.envelopeSchema.None? && !LegacyHits(row) && !AssetHits(row) && Undoable(row)
    ensures LegacyUpgrade(row, first) == row && AssetUpgrade(row, second) == row
    ensures AssetDowngrade(row) == Some(row) && LegacyDowngrade(row) == Some(row)
  {
  }

  /** After both upgrades no tool approval is open: neither pending nor approved. */
  lemma NothingStaysOpen(row: Row, first: int, second: int)
    requires Typed(row) && row.tool.Some?
    ensures var up := AssetUpgrade(LegacyUpgrade(row, first), second);
            && up.status == Rejected
            && (BindsAssets(row.tool.value) ==> up.execution !in {Pending, Approved})
  {
  }
}
