/**
 The create-or-adopt schema helpers: each looks into the catalog first, creates what is missing,
 leaves alone what is there, and raises when what is there has another shape.
 */
module SchemaCompat {
  import opened Wrappers

  /* ---- The catalog ---- */

  datatype IndexColumn = Plain(name: string) | Expression(text: string)
  datatype Index = Index(columns: seq<IndexColumn>, unique: bool)
  datatype ForeignKey = ForeignKey(local: seq<string>, referent: string, remote: seq<string>)

  datatype Table = Table(
    columns: map<string, string>, indexes: map<string, Index>, foreignKeys: map<string, ForeignKey>,
    uniques: map<string, seq<string>>, checks: map<string, string>)

  type Catalog = map<string, Table>

  datatype Call =
    | CreateTable(table: string, shape: Table)
    | CreateIndex(table: string, name: string, columns: seq<IndexColumn>, unique: bool)
    | AddColumn(table: string, name: string, definition: string)
    | CreateForeignKey(table: string, name: string, key: ForeignKey)
    | CreateUnique(table: string, name: string, local: seq<string>)
    | CreateCheck(table: string, name: string, condition: string)

  /** Done tells whether the helper created something; Refused is an error of the database itself. */
  datatype Result = Done(catalog: Catalog, created: bool) | Drift | Refused

  /** Which statements the database executes: names in use, missing columns, existing data. */
  type Admission = (Catalog, Call) -> bool

  function PlainNames(columns: seq<IndexColumn>): Option<seq<string>> {
    if columns == [] then Some([])
    else if columns[0].Expression? then None
    else match PlainNames(columns[1..]) case None => None case Some(names) => Some([columns[0].name] + names)
  }

  /** A unique constraint brings an index of its name. */
  function UniqueIndex(columns: seq<string>): Index {
    Index(seq(|columns|, i requires 0 <= i < |columns| => Plain(columns[i])), true)
  }

  function Create(admits: Admission, c: Catalog, call: Call, table: Table): Result {
    if admits(c, call) then Done(c[call.table := table], true) else Refused
  }

  /** The column names of an existing index are compared only when the expected ones are all plain. */
  predicate SameIndex(existing: Index, columns: seq<IndexColumn>, unique: bool) {
    && (PlainNames(columns).Some? ==> existing.columns == columns)
    && existing.unique == unique
  }

  function Step(admits: Admission, c: Catalog, call: Call): Result {
    if call.CreateTable? then
      if call.table !in c then Create(admits, c, call, call.shape)
      else if call.shape.columns.Keys <= c[call.table].columns.Keys then Done(c, false)
      else Drift
    else if call.table !in c then Refused
    else
      var t := c[call.table];
      match call
      case CreateIndex(_, name, columns, unique) =>
        if name !in t.indexes then Create(admits, c, call, t.(indexes := t.indexes[name := Index(columns, unique)]))
        else if SameIndex(t.indexes[name], columns, unique) then Done(c, false)
        else Drift
      case AddColumn(_, name, definition) =>
        if name in t.columns then Done(c, false)
        else Create(admits, c, call, t.(columns := t.columns[name := definition]))
      case CreateForeignKey(_, name, key) =>
        if name !in t.foreignKeys then Create(admits, c, call, t.(foreignKeys := t.foreignKeys[name := key]))
        else if t.foreignKeys[name] == key then Done(c, false)
        else Drift
      case CreateUnique(_, name, local) =>
        if name in t.uniques then (if t.uniques[name] == local then Done(c, false) else Drift)
        else if name in t.indexes then Refused
        else Create(admits, c, call, t.(uniques := t.uniques[name := local], indexes := t.indexes[name := UniqueIndex(local)]))
      case CreateCheck(_, name, condition) =>
        if name in t.checks then Done(c, false)
        else Create(admits, c, call, t.(checks := t.checks[name := condition]))
  }

  /* ---- What one call does ---- */

  lemma PlainExactly(columns: seq<IndexColumn>)
    ensures PlainNames(columns).Some? <==> forall i :: 0 <= i < |columns| ==> columns[i].Plain?
    ensures PlainNames(columns).Some? ==>
              |PlainNames(columns).value| == |columns|
              && forall i :: 0 <= i < |columns| ==> columns[i] == Plain(PlainNames(columns).value[i])
  {
    if columns != [] { PlainExactly(columns[1..]); }
  }

  /** The object a call is about is missing from the catalog. */
  predicate Missing(c: Catalog, call: Call) {
    if call.CreateTable? then call.table !in c
    else
      && call.table in c
      && match call
         case CreateIndex(table, name, _, _) => name !in c[table].indexes
         case AddColumn(table, name, _) => name !in c[table].columns
         case CreateForeignKey(table, name, _) => name !in c[table].foreignKeys
         case CreateUnique(table, name, _) => name !in c[table].uniques && name !in c[table].indexes
         case CreateCheck(table, name, _) => name !in c[table].checks
  }

  /** What is there under the call's name has the shape the call asks for. */
  predicate Fits(c: Catalog, call: Call) {
    && call.table in c
    && match call
       case CreateTable(table, shape) => forall column :: column in shape.columns ==> column in c[table].columns
       case CreateIndex(table, name, columns, unique) =>
         && name in c[table].indexes && c[table].indexes[name].unique == unique
         && ((exists i :: 0 <= i < |columns| && columns[i].Expression?) || c[table].indexes[name].columns == columns)
       case AddColumn(table, name, _) => name in c[table].columns
       case CreateForeignKey(table, name, key) => name in c[table].foreignKeys && c[table].foreignKeys[name] == key
       case CreateUnique(table, name, local) => name in c[table].uniques && c[table].uniques[name] == local
       case CreateCheck(table, name, _) => name in c[table].checks
  }

  /** The table with the new object and everything it had; a unique constraint brings its unique index. */
  predicate Added(before: Table, after: Table, call: Call)
    requires !call.CreateTable?
  {
    && after.columns == (if call.AddColumn? then before.columns[call.name := call.definition] else before.columns)
    && after.foreignKeys == (if call.CreateForeignKey? then before.foreignKeys[call.name := call.key] else before.foreignKeys)
    && after.uniques == (if call.CreateUnique? then before.uniques[call.name := call.local] else before.uniques)
    && after.checks == (if call.CreateCheck? then before.checks[call.name := call.condition] else before.checks)
    && (if call.CreateIndex? then after.indexes == before.indexes[call.name := Index(call.columns, call.unique)]
        else if call.CreateUnique? then
          && call.name in after.indexes && after.indexes - {call.name} == before.indexes - {call.name}
          && after.indexes[call.name].unique && |after.indexes[call.name].columns| == |call.local|
          && forall i :: 0 <= i < |call.local| ==> after.indexes[call.name].columns[i] == Plain(call.local[i])
        else after.indexes == before.indexes)
  }

  /** A call creates exactly if its object is missing and the database admits it, and then exactly that object. */
  lemma CreatedExactly(admits: Admission, c: Catalog, call: Call)
    ensures Step(admits, c, call).Done? && Step(admits, c, call).created <==> Missing(c, call) && admits(c, call)
    ensures Step(admits, c, call).Done? && Step(admits, c, call).created ==>
              var d := Step(admits, c, call).catalog;
              && d.Keys == c.Keys + {call.table}
              && (forall other :: other in c && other != call.table ==> d[other] == c[other])
              && (if call.CreateTable? then d[call.table] == call.shape else Added(c[call.table], d[call.table], call))
  {
  }

  lemma SameIndexExactly(existing: Index, columns: seq<IndexColumn>, unique: bool)
    ensures SameIndex(existing, columns, unique)
            <==> existing.unique == unique
                 && ((exists i :: 0 <= i < |columns| && columns[i].Expression?) || existing.columns == columns)
  {
    PlainExactly(columns);
  }

  /** It adopts exactly what is there and fits, and leaves the catalog alone; what is there and does not fit is drift. */
  lemma AdoptedExactly(admits: Admission, c: Catalog, call: Call)
    ensures Step(admits, c, call) == Done(c, false) <==> Fits(c, call)
    ensures Step(admits, c, call).Done? && !Step(admits, c, call).created ==> Step(admits, c, call).catalog == c
    ensures Step(admits, c, call) == Drift
            <==> && call.table in c && !Missing(c, call) && !Fits(c, call)
                 && (call.CreateUnique? ==> call.name in c[call.table].uniques)
  {
    if call.CreateIndex? && call.table in c && call.name in c[call.table].indexes {
      SameIndexExactly(c[call.table].indexes[call.name], call.columns, call.unique);
    }
  }

  /** The operations object of a migration, which changes the database's catalog. */
  class Operations {
    var catalog: Catalog
    const admits: Admission

    constructor (catalog: Catalog, admits: Admission)
      ensures this.catalog == catalog && this.admits == admits
    {
      this.catalog := catalog;
      this.admits := admits;
    }

    /** The result of a call together with the catalog it leaves; an error leaves it as it was. */
    ghost predicate Leaves(before: Catalog, call: Call, r: Result)
      reads this
    {
      r == Step(admits, before, call) && catalog == if r.Done? then r.catalog else before
    }

    method Execute(call: Call, table: Table) returns (r: Result)
      modifies `catalog
      ensures r == Create(admits, old(catalog), call, table)
      ensures catalog == if r.Done? then r.catalog else old(catalog)
    {
      if !admits(catalog, call) {
        return Refused;
      }
      catalog := catalog[call.table := table];
      return Done(catalog, true);
    }

    method CreateTableIfMissing(table: string, shape: Table) returns (r: Result)
      modifies `catalog
      ensures Leaves(old(catalog), CreateTable(table, shape), r)
    {
      if table !in catalog {
        r := Execute(CreateTable(table, shape), shape);
        return;
      }
      var missing := shape.columns.Keys - catalog[table].columns.Keys;
      if missing != {} {
        var name :| name in missing;
        assert name in shape.columns.Keys && name !in catalog[table].columns.Keys;
        return Drift;
      }
      forall name | name in shape.columns.Keys ensures name in catalog[table].columns.Keys {
        assert name !in missing;
      }
      return Done(catalog, false);
    }

    method CreateIndexIfMissing(table: string, name: string, columns: seq<IndexColumn>, unique: bool) returns (r: Result)
      modifies `catalog
      ensures Leaves(old(catalog), CreateIndex(table, name, columns, unique), r)
    {
      if table !in catalog {
        return Refused;
      }
      var t := catalog[table];
      if name !in t.indexes {
        r := Execute(CreateIndex(table, name, columns, unique), t.(indexes := t.indexes[name := Index(columns, unique)]));
        return;
      }
      if PlainNames(columns).Some? && t.indexes[name].columns != columns {
        return Drift;
      }
      if t.indexes[name].unique != unique {
        return Drift;
      }
      return Done(catalog, false);
    }

    method AddColumnIfMissing(table: string, name: string, definition: string) returns (r: Result)
      modifies `catalog
      ensures Leaves(old(catalog), AddColumn(table, name, definition), r)
    {
      if table !in catalog {
        return Refused;
      }
      var t := catalog[table];
      if name in t.columns {
        return Done(catalog, false);
      }
      r := Execute(AddColumn(table, name, definition), t.(columns := t.columns[name := definition]));
    }

    method CreateForeignKeyIfMissing(table: string, name: string, key: ForeignKey) returns (r: Result)
      modifies `catalog
      ensures Leaves(old(catalog), CreateForeignKey(table, name, key), r)
    {
      if table !in catalog {
        return Refused;
      }
      var t := catalog[table];
      if name !in t.foreignKeys {
        r := Execute(CreateForeignKey(table, name, key), t.(foreignKeys := t.foreignKeys[name := key]));
        return;
      }
      if t.foreignKeys[name] != key {
        return Drift;
      }
      return Done(catalog, false);
    }

    method CreateUniqueIfMissing(table: string, name: string, local: seq<string>) returns (r: Result)
      modifies `catalog
      ensures Leaves(old(catalog), CreateUnique(table, name, local), r)
    {
      if table !in catalog {
        return Refused;
      }
      var t := catalog[table];
      if name in t.uniques {
        if t.uniques[name] != local {
          return Drift;
        }
        return Done(catalog, false);
      }
      if name in t.indexes {
        return Refused;
      }
      r := Execute(CreateUnique(table, name, local),
                   t.(uniques := t.uniques[name := local], indexes := t.indexes[name := UniqueIndex(local)]));
    }

    method CreateCheckIfMissing(table: string, name: string, condition: string) returns (r: Result)
      modifies `catalog
      ensures Leaves(old(catalog), CreateCheck(table, name, condition), r)
    {
      if table !in catalog {
        return Refused;
      }
      var t := catalog[table];
      if name in t.checks {
        return Done(catalog, false);
      }
      r := Execute(CreateCheck(table, name, condition), t.(checks := t.checks[name := condition]));
    }
  }

  /* ---- Runs ---- */

  datatype Outcome = Failed | Finished(catalog: Catalog, created: seq<bool>)

  function Run(admits: Admission, c: Catalog, calls: seq<Call>): Outcome
    decreases |calls|
  {
    if calls == [] then Finished(c, [])
    else
      match Step(admits, c, calls[0])
      case Done(next, created) =>
        (match Run(admits, next, calls[1..])
         case Failed => Failed
         case Finished(last, rest) => Finished(last, [created] + rest))
      case _ => Failed
  }

  /* ---- Nothing existing is altered ---- */

  predicate Submap<K, V(==)>(a: map<K, V>, b: map<K, V>) {
    forall k :: k in a ==> k in b && b[k] == a[k]
  }

  predicate TableExtends(t: Table, u: Table) {
    && Submap(t.columns, u.columns) && Submap(t.indexes, u.indexes) && Submap(t.foreignKeys, u.foreignKeys)
    && Submap(t.uniques, u.uniques) && Submap(t.checks, u.checks)
  }

  /** Every table is still there with everything it had, in the same shape. */
  predicate Extends(c: Catalog, d: Catalog) {
    forall name :: name in c ==> name in d && TableExtends(c[name], d[name])
  }

  lemma ExtendsIsTransitive(c: Catalog, d: Catalog, e: Catalog)
    requires Extends(c, d) && Extends(d, e)
    ensures Extends(c, e)
  {
    forall name | name in c ensures name in e && TableExtends(c[name], e[name]) {
      assert TableExtends(c[name], d[name]) && TableExtends(d[name], e[name]);
    }
  }

  lemma PutExtends(c: Catalog, name: string, table: Table)
    requires name in c ==> TableExtends(c[name], table)
    ensures Extends(c, c[name := table])
  {
  }

  lemma StepExtends(admits: Admission, c: Catalog, call: Call)
    requires Step(admits, c, call).Done?
    ensures Extends(c, Step(admits, c, call).catalog)
    ensures !Step(admits, c, call).created ==> Step(admits, c, call).catalog == c
  {
    var d := Step(admits, c, call).catalog;
    if d != c {
      assert d == c[call.table := d[call.table]];
      PutExtends(c, call.table, d[call.table]);
    }
  }

  lemma {:induction false} RunExtends(admits: Admission, c: Catalog, calls: seq<Call>)
    requires Run(admits, c, calls).Finished?
    ensures Extends(c, Run(admits, c, calls).catalog)
    decreases |calls|
  {
    if calls != [] {
      StepExtends(admits, c, calls[0]);
      RunExtends(admits, Step(admits, c, calls[0]).catalog, calls[1..]);
      ExtendsIsTransitive(c, Step(admits, c, calls[0]).catalog, Run(admits, c, calls).catalog);
    }
  }

  /* ---- Replay ---- */

  /** A call that went through finds its object in every catalog that extends the one it left. */
  lemma CallIsSettled(admits: Admission, c: Catalog, call: Call, d: Catalog)
    requires Step(admits, c, call).Done? && Extends(Step(admits, c, call).catalog, d)
    ensures Step(admits, d, call) == Done(d, false)
  {
    var left := Step(admits, c, call).catalog;
    assert call.table in left;
  }

  /** Two runs one after the other, as one. */
  function Then(admits: Admission, first: Outcome, b: seq<Call>): Outcome {
    if first.Failed? then Failed
    else
      match Run(admits, first.catalog, b)
      case Failed => Failed
      case Finished(last, created) => Finished(last, first.created + created)
  }

  lemma {:induction false} RunSplits(admits: Admission, c: Catalog, a: seq<Call>, b: seq<Call>)
    ensures Run(admits, c, a + b) == Then(admits, Run(admits, c, a), b)
    decreases |a|
  {
    if a == [] {
      assert a + b == b;
    } else {
      assert (a + b)[1..] == a[1..] + b && (a + b)[0] == a[0];
      if Step(admits, c, a[0]).Done? {
        var next := Step(admits, c, a[0]).catalog;
        RunSplits(admits, next, a[1..], b);
        if Run(admits, c, a + b).Finished? {
          var flag := [Step(admits, c, a[0]).created];
          var x, y := Run(admits, next, a[1..]), Run(admits, Run(admits, next, a[1..]).catalog, b);
          assert flag + (x.created + y.created) == (flag + x.created) + y.created;
        }
      }
    }
  }

  function AllFalse(n: nat): (r: seq<bool>)
    ensures |r| == n && forall i :: 0 <= i < n ==> !r[i]
  {
    if n == 0 then [] else [false] + AllFalse(n - 1)
  }

  /** Replaying calls that went through creates nothing and reports so, call by call. */
  lemma {:induction false} ReplayCreatesNothing(admits: Admission, c: Catalog, calls: seq<Call>, d: Catalog)
    requires Run(admits, c, calls).Finished? && Extends(Run(admits, c, calls).catalog, d)
    ensures Run(admits, d, calls) == Finished(d, AllFalse(|calls|))
    decreases |calls|
  {
    if calls != [] {
      var next := Step(admits, c, calls[0]).catalog;
      RunExtends(admits, next, calls[1..]);
      ExtendsIsTransitive(next, Run(admits, c, calls).catalog, d);
      CallIsSettled(admits, c, calls[0], d);
      ReplayCreatesNothing(admits, next, calls[1..], d);
    }
  }

  lemma ReplayThenRest(admits: Admission, c: Catalog, a: seq<Call>, b: seq<Call>)
    requires Run(admits, c, a + b).Finished?
    ensures Run(admits, c, a).Finished? && Run(admits, Run(admits, c, a).catalog, b).Finished?
    ensures var rest := Run(admits, Run(admits, c, a).catalog, b);
            && Run(admits, c, a + b) == Finished(rest.catalog, Run(admits, c, a).created + rest.created)
            && Run(admits, Run(admits, c, a).catalog, a + b) == Finished(rest.catalog, AllFalse(|a|) + rest.created)
  {
    RunSplits(admits, c, a, b);
    var middle := Run(admits, c, a).catalog;
    ReplayCreatesNothing(admits, c, a, middle);
    RunSplits(admits, middle, a, b);
  }

  /**
   A run that died after any prefix, and then the whole list again: the same catalog as one full run.
   The replayed calls all report false, the others what they report in the full run.
   */
  lemma PrefixThenWhole(admits: Admission, c: Catalog, calls: seq<Call>, n: nat)
    requires n <= |calls| && Run(admits, c, calls).Finished?
    ensures Run(admits, c, calls[..n]).Finished?
    ensures var whole := Run(admits, c, calls);
            var again := Run(admits, Run(admits, c, calls[..n]).catalog, calls);
            && again.Finished? && again.catalog == whole.catalog
            && |again.created| == |whole.created| == |calls|
            && forall i :: 0 <= i < |calls| ==> again.created[i] == (i >= n && whole.created[i])
  {
    var a, b := calls[..n], calls[n..];
    assert a + b == calls;
    ReplayThenRest(admits, c, a, b);
    CreatedLength(admits, c, a);
    CreatedLength(admits, Run(admits, c, a).catalog, b);
    SecondHalf(AllFalse(n), Run(admits, c, a).created, Run(admits, Run(admits, c, a).catalog, b).created);
  }

  lemma SecondHalf(none: seq<bool>, first: seq<bool>, rest: seq<bool>)
    requires |none| == |first| && forall i :: 0 <= i < |none| ==> !none[i]
    ensures forall i :: 0 <= i < |first + rest| ==> (none + rest)[i] == (i >= |first| && (first + rest)[i])
  {
  }

  lemma {:induction false} CreatedLength(admits: Admission, c: Catalog, calls: seq<Call>)
    requires Run(admits, c, calls).Finished?
    ensures |Run(admits, c, calls).created| == |calls|
    decreases |calls|
  {
    if calls != [] { CreatedLength(admits, Step(admits, c, calls[0]).catalog, calls[1..]); }
  }

  /* ---- Any number of attempts ---- */

  /** Each attempt starts the list over and dies after some number of calls. */
  function Tries(admits: Admission, c: Catalog, calls: seq<Call>, stops: seq<nat>): Option<Catalog>
    requires forall i :: 0 <= i < |stops| ==> stops[i] <= |calls|
    decreases |stops|
  {
    if stops == [] then Some(c)
    else
      match Run(admits, c, calls[..stops[0]])
      case Failed => None
      case Finished(next, _) => Tries(admits, next, calls, stops[1..])
  }

  function Furthest(stops: seq<nat>, least: nat): nat {
    if stops == [] then least else Furthest(stops[1..], if stops[0] > least then stops[0] else least)
  }

  /** An attempt over a catalog that already has the first `n` calls behind it. */
  lemma OneMoreTry(admits: Admission, c: Catalog, calls: seq<Call>, n: nat, stop: nat)
    requires n <= |calls| && stop <= |calls| && Run(admits, c, calls).Finished?
    ensures Run(admits, c, calls[..n]).Finished? && Run(admits, c, calls[..if stop > n then stop else n]).Finished?
    ensures var again := Run(admits, Run(admits, c, calls[..n]).catalog, calls[..stop]);
            again.Finished? && again.catalog == Run(admits, c, calls[..if stop > n then stop else n]).catalog
  {
    var m := if stop > n then stop else n;
    assert calls[..m] + calls[m..] == calls && calls[..n] + calls[n..] == calls;
    RunSplits(admits, c, calls[..m], calls[m..]);
    RunSplits(admits, c, calls[..n], calls[n..]);
    if stop > n {
      assert calls[..stop][..n] == calls[..n];
      PrefixThenWhole(admits, c, calls[..stop], n);
    } else {
      assert calls[..stop] + calls[stop..n] == calls[..n];
      RunSplits(admits, c, calls[..stop], calls[stop..n]);
      RunExtends(admits, Run(admits, c, calls[..stop]).catalog, calls[stop..n]);
      ReplayCreatesNothing(admits, c, calls[..stop], Run(admits, c, calls[..n]).catalog);
    }
  }

  /** After any attempts the catalog is that of the furthest one, so the next full run completes it. */
  lemma {:induction false} TriesReachTheFurthest(admits: Admission, c: Catalog, calls: seq<Call>, n: nat, stops: seq<nat>)
    requires n <= |calls| && Run(admits, c, calls).Finished?
    requires forall i :: 0 <= i < |stops| ==> stops[i] <= |calls|
    ensures Furthest(stops, n) <= |calls|
    ensures Run(admits, c, calls[..n]).Finished? && Run(admits, c, calls[..Furthest(stops, n)]).Finished?
    ensures Tries(admits, Run(admits, c, calls[..n]).catalog, calls, stops)
            == Some(Run(admits, c, calls[..Furthest(stops, n)]).catalog)
    decreases |stops|
  {
    PrefixThenWhole(admits, c, calls, n);
    if stops != [] {
      OneMoreTry(admits, c, calls, n, stops[0]);
      TriesReachTheFurthest(admits, c, calls, if stops[0] > n then stops[0] else n, stops[1..]);
    }
  }
}
