/**
 Online replacement of the completion-outbox index: concurrent DDL outside a transaction, where the
 process may die between any two catalog changes and leave an index half built or half dropped.
 */
module IndexReplacement {

  /** The official name, and the replacement names of the upgrade and of the downgrade. */
  datatype Name = Official | UpgradeReplacement | DowngradeReplacement
  datatype Filter = Pending | LegacyPending
  datatype Index = Index(valid: bool, ready: bool, filter: Filter)
  type Indexes = map<Name, Index>

  datatype Status = Running | Died | Raised

  /** `budget` is the number of catalog changes the process lives to make. */
  datatype State = State(indexes: Indexes, budget: nat, status: Status)

  datatype Direction = Upgrade | Downgrade {
    function Replacement(): Name {
      if Upgrade? then UpgradeReplacement else DowngradeReplacement
    }

    function Other(): Name {
      if Upgrade? then DowngradeReplacement else UpgradeReplacement
    }

    function Filter(): Filter {
      if Upgrade? then Pending else LegacyPending
    }
  }

  /* ---- Catalog changes ---- */

  function Change(s: State, indexes: Indexes): State {
    if s.status != Running then s
    else if s.budget == 0 then s.(status := Died)
    else State(indexes, s.budget - 1, Running)
  }

  /** DROP INDEX CONCURRENTLY IF EXISTS: the index stops being valid, then ready, then goes. */
  function DropConcurrently(s: State, name: Name): State {
    if s.status != Running || name !in s.indexes then s
    else
      var index := s.indexes[name];
      var s1 := Change(s, s.indexes[name := index.(valid := false)]);
      var s2 := Change(s1, s.indexes[name := index.(valid := false, ready := false)]);
      Change(s2, s.indexes - {name})
  }

  function DropInvalid(s: State, name: Name): State {
    if s.status == Running && name in s.indexes && (!s.indexes[name].valid || !s.indexes[name].ready)
    then DropConcurrently(s, name)
    else s
  }

  /** CREATE INDEX CONCURRENTLY IF NOT EXISTS: an index of that name, even a broken one, is left as it is. */
  function CreateConcurrently(s: State, name: Name, filter: Filter): State {
    if s.status != Running || name in s.indexes then s
    else
      var s1 := Change(s, s.indexes[name := Index(false, false, filter)]);
      var s2 := Change(s1, s.indexes[name := Index(false, true, filter)]);
      Change(s2, s.indexes[name := Index(true, true, filter)])
  }

  function Rename(s: State, from: Name, to: Name): State {
    if s.status != Running then s
    else if from !in s.indexes || to in s.indexes then s.(status := Raised)
    else Change(s, (s.indexes - {from})[to := s.indexes[from]])
  }

  function ReplaceOutboxIndex(s: State, replacement: Name, filter: Filter): State {
    var s1 := DropInvalid(s, replacement);
    var s2 := CreateConcurrently(s1, replacement, filter);
    var s3 := DropConcurrently(s2, Official);
    Rename(s3, replacement, Official)
  }

  /** One attempt at the migration, in either direction. */
  function Attempt(s: State, d: Direction): State {
    DropConcurrently(ReplaceOutboxIndex(s, d.Replacement(), d.Filter()), d.Other())
  }

  /* ---- Stage by stage ---- */

  /** What the process leaves behind when it lives to make `budget` changes of a creation: nothing, a shell, a built index, a valid one. */
  lemma CreationStages(s: State, name: Name, filter: Filter)
    requires s.status == Running && name !in s.indexes
    ensures var r := CreateConcurrently(s, name, filter);
            && (s.budget == 0 ==> r == State(s.indexes, 0, Died))
            && (s.budget == 1 ==> r == State(s.indexes[name := Index(false, false, filter)], 0, Died))
            && (s.budget == 2 ==> r == State(s.indexes[name := Index(false, true, filter)], 0, Died))
            && (s.budget >= 3 ==> r == State(s.indexes[name := Index(true, true, filter)], s.budget - 3, Running))
  {
  }

  /** And of a removal: all of it, an invalid index, one that is not maintained either, nothing. */
  lemma RemovalStages(s: State, name: Name)
    requires s.status == Running && name in s.indexes
    ensures var r := DropConcurrently(s, name);
            var was := s.indexes[name];
            && (s.budget == 0 ==> r == State(s.indexes, 0, Died))
            && (s.budget == 1 ==> r == State(s.indexes[name := Index(false, was.ready, was.filter)], 0, Died))
            && (s.budget == 2 ==> r == State(s.indexes[name := Index(false, false, was.filter)], 0, Died))
            && (s.budget >= 3 ==> r == State(s.indexes - {name}, s.budget - 3, Running))
  {
  }

  /** A creation adopts what has the name, a removal needs something of it, and a rename needs the new name free. */
  lemma NamesDecide(s: State, name: Name, filter: Filter, to: Name)
    requires s.status == Running
    ensures name in s.indexes ==> CreateConcurrently(s, name, filter) == s
    ensures name !in s.indexes ==> DropConcurrently(s, name) == s
    ensures Rename(s, name, to).status == Raised <==> name !in s.indexes || to in s.indexes
    ensures Rename(s, name, to).status == Raised ==> Rename(s, name, to).indexes == s.indexes
    ensures Rename(s, name, to).status == Running ==>
              && to in Rename(s, name, to).indexes && Rename(s, name, to).indexes[to] == s.indexes[name]
              && Rename(s, name, to).indexes - {to} == s.indexes - {name} && Rename(s, name, to).budget == s.budget - 1
  {
  }

  /** The migration as it changes the catalog in place. */
  class Catalog {
    var indexes: Indexes
    var budget: nat
    var status: Status

    constructor (indexes: Indexes, budget: nat)
      ensures Value() == State(indexes, budget, Running)
    {
      this.indexes := indexes;
      this.budget := budget;
      status := Running;
    }

    function Value(): State
      reads this
    {
      State(indexes, budget, status)
    }

    method Put(newest: Indexes)
      modifies this
      ensures Value() == Change(old(Value()), newest)
    {
      if status == Running {
        if budget == 0 {
          status := Died;
        } else {
          indexes := newest;
          budget := budget - 1;
        }
      }
    }

    method Drop(name: Name)
      modifies this
      ensures Value() == DropConcurrently(old(Value()), name)
    {
      if status == Running && name in indexes {
        var before := indexes;
        Put(before[name := before[name].(valid := false)]);
        Put(before[name := before[name].(valid := false, ready := false)]);
        Put(before - {name});
      }
    }

    method DropInvalidIndex(name: Name)
      modifies this
      ensures Value() == DropInvalid(old(Value()), name)
    {
      if status == Running && name in indexes && (!indexes[name].valid || !indexes[name].ready) {
        Drop(name);
      }
    }

    method Create(name: Name, filter: Filter)
      modifies this
      ensures Value() == CreateConcurrently(old(Value()), name, filter)
    {
      if status == Running && name !in indexes {
        var before := indexes;
        Put(before[name := Index(false, false, filter)]);
        Put(before[name := Index(false, true, filter)]);
        Put(before[name := Index(true, true, filter)]);
      }
    }

    method RenameIndex(from: Name, to: Name)
      modifies this
      ensures Value() == Rename(old(Value()), from, to)
    {
      if status == Running {
        if from !in indexes || to in indexes {
          status := Raised;
        } else {
          Put((indexes - {from})[to := indexes[from]]);
        }
      }
    }

    method Replace(replacement: Name, filter: Filter)
      modifies this
      ensures Value() == ReplaceOutboxIndex(old(Value()), replacement, filter)
    {
      DropInvalidIndex(replacement);
      Create(replacement, filter);
      Drop(Official);
      RenameIndex(replacement, Official);
    }

    method Migrate(d: Direction)
      modifies this
      ensures Value() == Attempt(old(Value()), d)
    {
      Replace(d.Replacement(), d.Filter());
      Drop(d.Other());
    }
  }

  /* ---- Safety ---- */

  predicate Usable(indexes: Indexes, name: Name) {
    name in indexes && indexes[name].valid && indexes[name].ready
  }

  /** The recovery lane has a usable index, and a replacement name means the filter of its own direction. */
  predicate Indexed(indexes: Indexes) {
    && (Usable(indexes, Official) || Usable(indexes, UpgradeReplacement) || Usable(indexes, DowngradeReplacement))
    && (UpgradeReplacement in indexes ==> indexes[UpgradeReplacement].filter == Pending)
    && (DowngradeReplacement in indexes ==> indexes[DowngradeReplacement].filter == LegacyPending)
  }

  lemma DropKeepsIndexed(s: State, name: Name, other: Name)
    requires Indexed(s.indexes) && (s.status == Running && name in s.indexes ==> name != other && Usable(s.indexes, other))
    ensures var r := DropConcurrently(s, name);
            && Indexed(r.indexes) && (s.status != Raised ==> r.status != Raised)
            && (r.status == Running ==> r.indexes == s.indexes - {name} && s.status == Running)
  {
  }

  lemma UsableOther(indexes: Indexes, name: Name) returns (other: Name)
    requires Indexed(indexes) && !Usable(indexes, name)
    ensures other != name && Usable(indexes, other)
  {
    other :| Usable(indexes, other);
  }

  lemma DropInvalidKeepsIndexed(s: State, name: Name)
    requires Indexed(s.indexes) && s.status != Raised
    ensures var r := DropInvalid(s, name);
            && Indexed(r.indexes) && r.status != Raised
            && (r.status == Running ==> s.status == Running && (name in r.indexes ==> Usable(r.indexes, name)))
  {
    if s.status == Running && name in s.indexes && !Usable(s.indexes, name) {
      var other := UsableOther(s.indexes, name);
      DropKeepsIndexed(s, name, other);
    }
  }

  lemma CreateKeepsIndexed(s: State, d: Direction)
    requires Indexed(s.indexes) && s.status != Raised
    requires s.status == Running && d.Replacement() in s.indexes ==> Usable(s.indexes, d.Replacement())
    ensures var r := CreateConcurrently(s, d.Replacement(), d.Filter());
            && Indexed(r.indexes) && r.status != Raised
            && (r.status == Running ==> Usable(r.indexes, d.Replacement()))
  {
  }

  lemma ReplaceKeepsIndexed(s: State, d: Direction)
    requires Indexed(s.indexes) && s.status != Raised
    ensures var r := ReplaceOutboxIndex(s, d.Replacement(), d.Filter());
            && Indexed(r.indexes) && r.status != Raised
            && (r.status == Running ==>
                  && Usable(r.indexes, Official) && r.indexes[Official].filter == d.Filter()
                  && d.Replacement() !in r.indexes)
  {
    var s1 := DropInvalid(s, d.Replacement());
    var s2 := CreateConcurrently(s1, d.Replacement(), d.Filter());
    DropInvalidKeepsIndexed(s, d.Replacement());
    CreateKeepsIndexed(s1, d);
    DropKeepsIndexed(s2, Official, d.Replacement());
  }

  /** The official index, and it alone, with the filter of the direction. */
  function Complete(d: Direction): Indexes {
    map[Official := Index(true, true, d.Filter())]
  }

  /**
   However far an attempt gets, the lane stays indexed and no statement raises; an attempt that gets
   to its end leaves the official index alone, with its filter.
   */
  lemma AttemptKeepsIndexed(s: State, d: Direction)
    requires Indexed(s.indexes) && s.status != Raised
    ensures Indexed(Attempt(s, d).indexes) && Attempt(s, d).status != Raised
    ensures Attempt(s, d).status == Running ==> Attempt(s, d).indexes == Complete(d)
  {
    var r := ReplaceOutboxIndex(s, d.Replacement(), d.Filter());
    ReplaceKeepsIndexed(s, d);
    DropKeepsIndexed(r, d.Other(), Official);
    if Attempt(s, d).status == Running {
      var indexes := Attempt(s, d).indexes;
      forall name ensures name in indexes <==> name == Official {
        match name
        case Official =>
        case UpgradeReplacement =>
        case DowngradeReplacement =>
      }
      assert indexes == Complete(d);
    }
  }

  lemma DropGetsThrough(s: State, name: Name)
    requires s.status == Running && s.budget >= 3
    ensures DropConcurrently(s, name).status == Running && DropConcurrently(s, name).budget >= s.budget - 3
  {
  }

  lemma CreateGetsThrough(s: State, name: Name, filter: Filter)
    requires s.status == Running && s.budget >= 3
    ensures var r := CreateConcurrently(s, name, filter); r.status == Running && r.budget >= s.budget - 3
  {
  }

  lemma RenameGetsThrough(s: State, from: Name, to: Name)
    requires s.status == Running && s.budget >= 1 && Rename(s, from, to).status != Raised
    ensures Rename(s, from, to).status == Running && Rename(s, from, to).budget >= s.budget - 1
  {
  }

  /** Thirteen catalog changes are enough for an attempt to get to its end from any state. */
  lemma AttemptGetsThrough(s: State, d: Direction)
    requires Indexed(s.indexes) && s.status == Running && s.budget >= 13
    ensures Attempt(s, d).status == Running
  {
    var s1 := DropInvalid(s, d.Replacement());
    var s2 := CreateConcurrently(s1, d.Replacement(), d.Filter());
    var s3 := DropConcurrently(s2, Official);
    ReplaceKeepsIndexed(s, d);
    DropGetsThrough(s, d.Replacement());
    CreateGetsThrough(s1, d.Replacement(), d.Filter());
    DropGetsThrough(s2, Official);
    RenameGetsThrough(s3, d.Replacement(), Official);
    DropGetsThrough(Rename(s3, d.Replacement(), Official), d.Other());
  }

  /* ---- Runs of attempts ---- */

  datatype Try = Try(direction: Direction, budget: nat)

  function Tries(indexes: Indexes, tries: seq<Try>): Indexes
    decreases |tries|
  {
    if tries == [] then indexes
    else Tries(Attempt(State(indexes, tries[0].budget, Running), tries[0].direction).indexes, tries[1..])
  }

  /** Any number of attempts in either direction, each dying at any point, leaves the lane indexed. */
  lemma {:induction false} TriesKeepIndexed(indexes: Indexes, tries: seq<Try>)
    requires Indexed(indexes)
    ensures Indexed(Tries(indexes, tries))
    decreases |tries|
  {
    if tries != [] {
      var s := State(indexes, tries[0].budget, Running);
      AttemptKeepsIndexed(s, tries[0].direction);
      TriesKeepIndexed(Attempt(s, tries[0].direction).indexes, tries[1..]);
    }
  }

  /** And whatever those attempts left behind, one that is not interrupted finishes the work. */
  lemma LastTryDecides(indexes: Indexes, tries: seq<Try>, d: Direction, budget: nat)
    requires Indexed(indexes) && budget >= 13
    ensures Attempt(State(Tries(indexes, tries), budget, Running), d).indexes == Complete(d)
  {
    TriesKeepIndexed(indexes, tries);
    var s := State(Tries(indexes, tries), budget, Running);
    AttemptGetsThrough(s, d);
    AttemptKeepsIndexed(s, d);
  }
}
