/**
 Staged patching of an installed package: every patch is staged in memory first, then the changed
 files are written one by one, and the process may die between two writes.
 */
module SourcePatch {
  import opened Wrappers
  import opened AnchoredRewrite

  datatype Patch = Patch(path: string, original: string, replacement: string)
  type Files = map<string, string>

  /** The pending dictionary: its keys in the order of insertion, and its texts. */
  datatype Staged = Staged(order: seq<string>, texts: map<string, string>)

  datatype Outcome = Refused | Died | Changed(count: nat)

  /* ---- One text ---- */

  predicate Contains(s: string, p: string) {
    Find(s, p, 0).Some?
  }

  function ReplaceFirst(s: string, p: string, w: string): string
    requires Contains(s, p)
  {
    Splice(s, Find(s, p, 0).value, |p|, w)
  }

  /** None is the missing anchor. */
  function PatchText(s: string, patch: Patch): Option<string> {
    if Contains(s, patch.replacement) then Some(s)
    else if !Contains(s, patch.original) then None
    else Some(ReplaceFirst(s, patch.original, patch.replacement))
  }

  function PatchAll(s: string, patches: seq<Patch>): Option<string>
    decreases |patches|
  {
    if patches == [] then Some(s)
    else match PatchText(s, patches[0]) case None => None case Some(t) => PatchAll(t, patches[1..])
  }

  /* ---- Staging and writing ---- */

  function StageOne(files: Files, staged: Staged, patch: Patch): Option<Staged> {
    if patch.path !in staged.texts && patch.path !in files then None
    else
      var source := if patch.path in staged.texts then staged.texts[patch.path] else files[patch.path];
      match PatchText(source, patch)
      case None => None
      case Some(t) =>
        Some(Staged(if patch.path in staged.texts then staged.order else staged.order + [patch.path],
                    staged.texts[patch.path := t]))
  }

  function Stage(files: Files, staged: Staged, patches: seq<Patch>): Option<Staged>
    decreases |patches|
  {
    if patches == [] then Some(staged)
    else match StageOne(files, staged, patches[0]) case None => None case Some(next) => Stage(files, next, patches[1..])
  }

  const NOTHING := Staged([], map[])

  /** The write loop; `budget` is the number of writes the process lives to make. */
  function Write(files: Files, order: seq<string>, texts: map<string, string>, budget: nat, count: nat): (Files, Outcome)
    requires forall path :: path in order ==> path in texts && path in files
    decreases |order|
  {
    if order == [] then (files, Changed(count))
    else
      var path := order[0];
      if files[path] == texts[path] then Write(files, order[1..], texts, budget, count)
      else if budget == 0 then (files, Died)
      else Write(files[path := texts[path]], order[1..], texts, budget - 1, count + 1)
  }

  lemma {:induction false} StagedIsOnDisk(files: Files, staged: Staged, patches: seq<Patch>)
    requires forall path :: path in staged.order ==> path in staged.texts && path in files
    requires Stage(files, staged, patches).Some?
    ensures forall path :: path in Stage(files, staged, patches).value.order ==>
              path in Stage(files, staged, patches).value.texts && path in files
    decreases |patches|
  {
    if patches != [] {
      StagedIsOnDisk(files, StageOne(files, staged, patches[0]).value, patches[1..]);
    }
  }

  function Apply(files: Files, patches: seq<Patch>, budget: nat): (Files, Outcome) {
    match Stage(files, NOTHING, patches)
    case None => (files, Refused)
    case Some(staged) =>
      StagedIsOnDisk(files, NOTHING, patches);
      Write(files, staged.order, staged.texts, budget, 0)
  }

  /** The package directory, whose files the program rewrites. */
  class Package {
    var files: Files

    constructor (files: Files)
      ensures this.files == files
    {
      this.files := files;
    }

    method PatchSource(source: string, patch: Patch) returns (patched: Option<string>)
      ensures patched == PatchText(source, patch)
    {
      if Contains(source, patch.replacement) {
        return Some(source);
      }
      if !Contains(source, patch.original) {
        return None;
      }
      return Some(ReplaceFirst(source, patch.original, patch.replacement));
    }

    /** The first loop, which only reads. */
    method StagePatches(patches: seq<Patch>) returns (staged: Option<Staged>)
      ensures staged == Stage(files, NOTHING, patches)
    {
      var order: seq<string>, texts: map<string, string> := [], map[];
      var i := 0;
      while i < |patches|
        invariant 0 <= i <= |patches|
        invariant Stage(files, Staged(order, texts), patches[i..]) == Stage(files, NOTHING, patches)
      {
        var patch := patches[i];
        assert patches[i..][1..] == patches[i + 1..];
        if patch.path !in texts && patch.path !in files {
          return None;
        }
        var source := if patch.path in texts then texts[patch.path] else files[patch.path];
        var patched := PatchSource(source, patch);
        if patched.None? {
          return None;
        }
        source := patched.value;
        if patch.path !in texts {
          order := order + [patch.path];
        }
        texts := texts[patch.path := source];
        i := i + 1;
      }
      return Some(Staged(order, texts));
    }

    /** The second loop, which writes the files that change. */
    method WriteStaged(order: seq<string>, texts: map<string, string>, budget: nat) returns (outcome: Outcome)
      requires forall path :: path in order ==> path in texts && path in files
      modifies this
      ensures (files, outcome) == Write(old(files), order, texts, budget, 0)
    {
      var changed: nat := 0;
      var k := 0;
      while k < |order|
        invariant 0 <= k <= |order| && changed <= budget
        invariant files.Keys == old(files).Keys
        invariant Write(files, order[k..], texts, budget - changed, changed) == Write(old(files), order, texts, budget, 0)
      {
        var path := order[k];
        assert order[k..][1..] == order[k + 1..];
        if files[path] != texts[path] {
          if changed == budget {
            return Died;
          }
          files := files[path := texts[path]];
          changed := changed + 1;
        }
        k := k + 1;
      }
      return Changed(changed);
    }

    method ApplyPatches(patches: seq<Patch>, budget: nat) returns (outcome: Outcome)
      modifies this
      ensures (files, outcome) == Apply(old(files), patches, budget)
    {
      var staged := StagePatches(patches);
      if staged.None? {
        return Refused;
      }
      StagedIsOnDisk(files, NOTHING, patches);
      outcome := WriteStaged(staged.value.order, staged.value.texts, budget);
    }
  }

  /* ---- Staging, file by file ---- */

  function On(patches: seq<Patch>, path: string): seq<Patch> {
    if patches == [] then []
    else (if patches[0].path == path then [patches[0]] else []) + On(patches[1..], path)
  }

  /** The paths of the patches in the order they first occur, behind those already seen. */
  function PathsOf(seen: seq<string>, patches: seq<Patch>): seq<string>
    decreases |patches|
  {
    if patches == [] then seen
    else PathsOf(if patches[0].path in seen then seen else seen + [patches[0].path], patches[1..])
  }

  function Source(files: Files, staged: Staged, path: string): Option<string> {
    if path in staged.texts then Some(staged.texts[path])
    else if path in files then Some(files[path])
    else None
  }

  /** The patches of one file can be applied to it one after the other. */
  predicate Patchable(files: Files, staged: Staged, patches: seq<Patch>, path: string) {
    Source(files, staged, path).Some? && PatchAll(Source(files, staged, path).value, On(patches, path)).Some?
  }

  lemma OnFirst(patches: seq<Patch>)
    requires patches != []
    ensures On(patches, patches[0].path) == [patches[0]] + On(patches[1..], patches[0].path)
    ensures On(patches, patches[0].path)[0] == patches[0]
    ensures On(patches, patches[0].path)[1..] == On(patches[1..], patches[0].path)
  {
  }

  lemma PatchAllStep(s: string, patches: seq<Patch>)
    requires patches != [] && PatchText(s, patches[0]).Some?
    ensures PatchAll(s, patches) == PatchAll(PatchText(s, patches[0]).value, patches[1..])
  {
  }

  /** What staging one patch leaves to do for a file. */
  lemma OneStagedPerFile(files: Files, staged: Staged, patches: seq<Patch>, path: string)
    requires patches != [] && StageOne(files, staged, patches[0]).Some?
    ensures var next := StageOne(files, staged, patches[0]).value;
            && (Source(files, staged, path).Some? <==> Source(files, next, path).Some?)
            && (Source(files, staged, path).Some? ==>
                  PatchAll(Source(files, staged, path).value, On(patches, path))
                  == PatchAll(Source(files, next, path).value, On(patches[1..], path)))
  {
    if patches[0].path == path {
      OnFirst(patches);
      FirstStaged(files, staged, patches[0]);
      PatchAllStep(Source(files, staged, path).value, On(patches, path));
    } else {
      assert On(patches, path) == On(patches[1..], path);
    }
  }

  lemma FirstStaged(files: Files, staged: Staged, patch: Patch)
    requires StageOne(files, staged, patch).Some?
    ensures var next := StageOne(files, staged, patch).value;
            && Source(files, staged, patch.path).Some?
            && PatchText(Source(files, staged, patch.path).value, patch).Some?
            && Source(files, next, patch.path) == PatchText(Source(files, staged, patch.path).value, patch)
  {
  }

  ghost predicate AllPatchable(files: Files, staged: Staged, patches: seq<Patch>) {
    forall path :: On(patches, path) != [] ==> Patchable(files, staged, patches, path)
  }

  lemma AllPatchableStep(files: Files, staged: Staged, patches: seq<Patch>)
    requires patches != []
    ensures AllPatchable(files, staged, patches) <==>
              && StageOne(files, staged, patches[0]).Some?
              && AllPatchable(files, StageOne(files, staged, patches[0]).value, patches[1..])
  {
    OnFirst(patches);
    var first := patches[0].path;
    if StageOne(files, staged, patches[0]).Some? {
      var next := StageOne(files, staged, patches[0]).value;
      forall path ensures Patchable(files, staged, patches, path) == Patchable(files, next, patches[1..], path) {
        OneStagedPerFile(files, staged, patches, path);
      }
    } else {
      assert On(patches, first) != [] && !Patchable(files, staged, patches, first);
    }
  }

  /** Staging succeeds exactly when each file can take its own patches, and then stages just that. */
  lemma {:induction false} StageIsPerFile(files: Files, staged: Staged, patches: seq<Patch>)
    requires forall path :: path in staged.order <==> path in staged.texts
    ensures Stage(files, staged, patches).Some? <==> AllPatchable(files, staged, patches)
    ensures Stage(files, staged, patches).Some? ==>
              var r := Stage(files, staged, patches).value;
              && r.order == PathsOf(staged.order, patches)
              && (forall path :: path in r.order <==> path in r.texts)
              && forall path :: path in r.texts <==> path in staged.texts || On(patches, path) != []
    decreases |patches|
  {
    if patches != [] {
      AllPatchableStep(files, staged, patches);
      OnFirst(patches);
      if StageOne(files, staged, patches[0]).Some? {
        StageIsPerFile(files, StageOne(files, staged, patches[0]).value, patches[1..]);
      }
    }
  }

  lemma {:induction false} StagedText(files: Files, staged: Staged, patches: seq<Patch>, path: string)
    requires Stage(files, staged, patches).Some? && path in Stage(files, staged, patches).value.texts
    ensures Source(files, staged, path).Some?
    ensures PatchAll(Source(files, staged, path).value, On(patches, path))
            == Some(Stage(files, staged, patches).value.texts[path])
    decreases |patches|
  {
    if patches != [] {
      OneStagedPerFile(files, staged, patches, path);
      StagedText(files, StageOne(files, staged, patches[0]).value, patches[1..], path);
    }
  }

  /* ---- Patches that do not undo each other ---- */

  /** Where `kept` stands, it still stands after the patch. */
  ghost predicate Spares(patch: Patch, kept: string) {
    forall s: string :: Contains(s, kept) && PatchText(s, patch).Some? ==> Contains(PatchText(s, patch).value, kept)
  }

  /** No later patch of a file destroys the replacement of an earlier one. */
  ghost predicate NeverUndone(patches: seq<Patch>) {
    forall i, j :: 0 <= i < j < |patches| && patches[i].path == patches[j].path ==>
      Spares(patches[j], patches[i].replacement)
  }

  /** It is enough that the later anchor cannot overlap the earlier replacement. */
  lemma ApartSpares(patch: Patch, kept: string)
    requires Apart(kept, patch.original)
    ensures Spares(patch, kept)
  {
    forall s: string | Contains(s, kept) && PatchText(s, patch).Some?
      ensures Contains(PatchText(s, patch).value, kept)
    {
      if !Contains(s, patch.replacement) {
        var i, q := Find(s, patch.original, 0).value, Find(s, kept, 0).value;
        FoundIsThere(s, patch.original, 0);
        FoundIsThere(s, kept, 0);
        ApartNeverOverlaps(s, kept, q, patch.original, i);
        var j := if q + |kept| <= i then q else q - |patch.original| + |patch.replacement|;
        OccurrenceMoves(s, i, |patch.original|, patch.replacement, kept, j);
        FindIsFirst(PatchText(s, patch).value, kept, 0, j);
      }
    }
  }

  lemma PatchLeavesReplacement(s: string, patch: Patch)
    requires PatchText(s, patch).Some?
    ensures Contains(PatchText(s, patch).value, patch.replacement)
  {
    if !Contains(s, patch.replacement) {
      FindIsFirst(PatchText(s, patch).value, patch.replacement, 0, Find(s, patch.original, 0).value);
    }
  }

  lemma {:induction false} PatchAllSpares(s: string, patches: seq<Patch>, kept: string)
    requires PatchAll(s, patches).Some? && Contains(s, kept)
    requires forall p :: p in patches ==> Spares(p, kept)
    ensures Contains(PatchAll(s, patches).value, kept)
    decreases |patches|
  {
    if patches != [] {
      assert Spares(patches[0], kept);
      PatchAllSpares(PatchText(s, patches[0]).value, patches[1..], kept);
    }
  }

  /** The patches of one file, none of which destroys an earlier replacement. */
  ghost predicate InOrder(patches: seq<Patch>) {
    forall i, j :: 0 <= i < j < |patches| ==> Spares(patches[j], patches[i].replacement)
  }

  lemma {:induction false} PatchAllLeavesReplacements(s: string, patches: seq<Patch>)
    requires PatchAll(s, patches).Some? && InOrder(patches)
    ensures forall p :: p in patches ==> Contains(PatchAll(s, patches).value, p.replacement)
    decreases |patches|
  {
    if patches != [] {
      var t := PatchText(s, patches[0]).value;
      PatchLeavesReplacement(s, patches[0]);
      PatchAllSpares(t, patches[1..], patches[0].replacement);
      PatchAllLeavesReplacements(t, patches[1..]);
    }
  }

  lemma {:induction false} PatchedIsDone(s: string, patches: seq<Patch>)
    requires forall p :: p in patches ==> Contains(s, p.replacement)
    ensures PatchAll(s, patches) == Some(s)
    decreases |patches|
  {
    if patches != [] { PatchedIsDone(s, patches[1..]); }
  }

  lemma {:induction false} OnIsInOrder(patches: seq<Patch>, path: string)
    requires NeverUndone(patches)
    ensures InOrder(On(patches, path))
    ensures forall p :: p in On(patches, path) <==> p in patches && p.path == path
  {
    if patches != [] {
      var rest := On(patches[1..], path);
      OnIsInOrder(patches[1..], path);
      if patches[0].path == path {
        forall j | 0 <= j < |rest| ensures Spares(rest[j], patches[0].replacement) {
          assert rest[j] in patches[1..];
          var k :| 0 <= k < |patches[1..]| && patches[1..][k] == rest[j];
          assert patches[k + 1] == rest[j];
        }
      }
    }
  }

  /* ---- Runs ---- */

  /** The files of a run nothing interrupts. */
  function Finished(files: Files, patches: seq<Patch>): Files
    requires Stage(files, NOTHING, patches).Some?
  {
    var texts := Stage(files, NOTHING, patches).value.texts;
    map path | path in files :: if path in texts then texts[path] else files[path]
  }

  /** Every file has the text it had or the text it is to have. */
  ghost predicate Between(files: Files, goal: Files, now: Files) {
    && now.Keys == files.Keys == goal.Keys
    && forall path :: path in now ==> now[path] == files[path] || now[path] == goal[path]
  }

  lemma {:induction false} WriteEffect(files: Files, order: seq<string>, texts: map<string, string>, goal: Files,
                                       budget: nat, count: nat)
    requires forall path :: path in order ==> path in texts && path in files
    requires goal.Keys == files.Keys
    requires forall path :: path in files ==> goal[path] == if path in order then texts[path] else files[path]
    ensures var (now, outcome) := Write(files, order, texts, budget, count);
            && Between(files, goal, now) && outcome != Refused
            && (outcome.Changed? ==> now == goal)
            && (budget >= |order| ==> outcome.Changed?)
    decreases |order|
  {
    if order == [] {
      assert files == goal;
    } else {
      var path := order[0];
      var next := if files[path] == texts[path] then files else files[path := texts[path]];
      if files[path] == texts[path] {
        WriteEffect(files, order[1..], texts, goal, budget, count);
      } else if budget > 0 {
        WriteEffect(next, order[1..], texts, goal, budget - 1, count + 1);
      }
    }
  }

  lemma {:induction false} NothingToWrite(files: Files, order: seq<string>, texts: map<string, string>, budget: nat, count: nat)
    requires forall path :: path in order ==> path in texts && path in files && files[path] == texts[path]
    ensures Write(files, order, texts, budget, count) == (files, Changed(count))
    decreases |order|
  {
    if order != [] { NothingToWrite(files, order[1..], texts, budget, count); }
  }

  /** A run is refused exactly when some file cannot take its patches, and then no file is written. */
  lemma RefusedExactly(files: Files, patches: seq<Patch>, budget: nat)
    ensures Apply(files, patches, budget).1 == Refused <==> !AllPatchable(files, NOTHING, patches)
    ensures Apply(files, patches, budget).1 == Refused ==> Apply(files, patches, budget).0 == files
  {
    StageIsPerFile(files, NOTHING, patches);
    if Stage(files, NOTHING, patches).Some? { ApplyEffect(files, patches, budget); }
  }

  lemma ApplyEffect(files: Files, patches: seq<Patch>, budget: nat)
    requires Stage(files, NOTHING, patches).Some?
    ensures var (now, outcome) := Apply(files, patches, budget);
            && Between(files, Finished(files, patches), now) && outcome != Refused
            && (outcome.Changed? ==> now == Finished(files, patches))
            && (budget >= |PathsOf([], patches)| ==> outcome.Changed?)
  {
    var staged := Stage(files, NOTHING, patches).value;
    StageIsPerFile(files, NOTHING, patches);
    StagedIsOnDisk(files, NOTHING, patches);
    WriteEffect(files, staged.order, staged.texts, Finished(files, patches), budget, 0);
  }

  lemma FinishedText(files: Files, patches: seq<Patch>, path: string)
    requires Stage(files, NOTHING, patches).Some? && On(patches, path) != []
    ensures path in files && path in Stage(files, NOTHING, patches).value.texts
    ensures PatchAll(files[path], On(patches, path)) == Some(Finished(files, patches)[path])
  {
    StageIsPerFile(files, NOTHING, patches);
    StagedText(files, NOTHING, patches, path);
    assert Patchable(files, NOTHING, patches, path);
  }

  /** After a successful run every replacement is present. */
  lemma SuccessLeavesReplacements(files: Files, patches: seq<Patch>, budget: nat)
    requires NeverUndone(patches) && Apply(files, patches, budget).1.Changed?
    ensures forall p :: p in patches ==>
              p.path in Apply(files, patches, budget).0 && Contains(Apply(files, patches, budget).0[p.path], p.replacement)
  {
    ApplyEffect(files, patches, budget);
    forall p | p in patches
      ensures p.path in Finished(files, patches) && Contains(Finished(files, patches)[p.path], p.replacement)
    {
      OnIsInOrder(patches, p.path);
      assert p in On(patches, p.path);
      FinishedText(files, patches, p.path);
      PatchAllLeavesReplacements(files[p.path], On(patches, p.path));
    }
  }

  lemma PatchesAgain(files: Files, patches: seq<Patch>, now: Files, path: string)
    requires NeverUndone(patches) && Stage(files, NOTHING, patches).Some? && On(patches, path) != []
    requires Between(files, Finished(files, patches), now)
    ensures path in now && PatchAll(now[path], On(patches, path)) == Some(Finished(files, patches)[path])
  {
    FinishedText(files, patches, path);
    OnIsInOrder(patches, path);
    PatchAllLeavesReplacements(files[path], On(patches, path));
    PatchedIsDone(Finished(files, patches)[path], On(patches, path));
  }

  lemma StagesAgain(files: Files, patches: seq<Patch>, now: Files)
    requires NeverUndone(patches) && Stage(files, NOTHING, patches).Some?
    requires Between(files, Finished(files, patches), now)
    ensures Stage(now, NOTHING, patches).Some?
  {
    forall path | On(patches, path) != [] ensures Patchable(now, NOTHING, patches, path) {
      PatchesAgain(files, patches, now, path);
    }
    StageIsPerFile(now, NOTHING, patches);
  }

  lemma StagesTextAgain(files: Files, patches: seq<Patch>, now: Files, path: string)
    requires NeverUndone(patches) && Stage(files, NOTHING, patches).Some? && Stage(now, NOTHING, patches).Some?
    requires Between(files, Finished(files, patches), now) && On(patches, path) != []
    ensures path in Stage(files, NOTHING, patches).value.texts && path in Stage(now, NOTHING, patches).value.texts
    ensures Stage(now, NOTHING, patches).value.texts[path] == Stage(files, NOTHING, patches).value.texts[path]
  {
    PatchesAgain(files, patches, now, path);
    FinishedText(files, patches, path);
    FinishedText(now, patches, path);
  }

  lemma SameStaged(a: Staged, b: Staged)
    requires a.order == b.order && a.texts.Keys == b.texts.Keys
    requires forall path :: path in a.texts ==> a.texts[path] == b.texts[path]
    ensures a == b
  {
    assert a.texts == b.texts;
  }

  lemma StagesSame(files: Files, patches: seq<Patch>, now: Files)
    requires NeverUndone(patches) && Stage(files, NOTHING, patches).Some? && Stage(now, NOTHING, patches).Some?
    requires Between(files, Finished(files, patches), now)
    ensures Stage(now, NOTHING, patches) == Stage(files, NOTHING, patches)
  {
    StageIsPerFile(files, NOTHING, patches);
    StageIsPerFile(now, NOTHING, patches);
    var a, b := Stage(files, NOTHING, patches).value, Stage(now, NOTHING, patches).value;
    forall path | path in a.texts ensures a.texts[path] == b.texts[path] {
      StagesTextAgain(files, patches, now, path);
    }
    SameStaged(a, b);
  }

  /** From a state a dying run left, the same texts are staged again. */
  lemma StageAgain(files: Files, patches: seq<Patch>, now: Files)
    requires NeverUndone(patches) && Stage(files, NOTHING, patches).Some?
    requires Between(files, Finished(files, patches), now)
    ensures Stage(now, NOTHING, patches) == Stage(files, NOTHING, patches)
    ensures Finished(now, patches) == Finished(files, patches)
  {
    StagesAgain(files, patches, now);
    StagesSame(files, patches, now);
    FinishedAgain(files, patches, now, Stage(files, NOTHING, patches).value.texts);
  }

  lemma FinishedAgain(files: Files, patches: seq<Patch>, now: Files, texts: map<string, string>)
    requires Stage(files, NOTHING, patches).Some? && Stage(now, NOTHING, patches) == Stage(files, NOTHING, patches)
    requires texts == Stage(files, NOTHING, patches).value.texts
    requires Between(files, Finished(files, patches), now)
    ensures Finished(now, patches) == Finished(files, patches)
  {
    var goal := Finished(files, patches);
    forall path | path in now && path !in texts ensures now[path] == goal[path] {
      assert goal[path] == files[path];
    }
  }

  /** Runs that may each die after any number of writes. */
  function Tries(files: Files, patches: seq<Patch>, budgets: seq<nat>): Files
    decreases |budgets|
  {
    if budgets == [] then files else Tries(Apply(files, patches, budgets[0]).0, patches, budgets[1..])
  }

  lemma {:induction false} TriesStayBetween(files: Files, patches: seq<Patch>, now: Files, budgets: seq<nat>)
    requires NeverUndone(patches) && Stage(files, NOTHING, patches).Some?
    requires Between(files, Finished(files, patches), now)
    ensures Between(files, Finished(files, patches), Tries(now, patches, budgets))
    decreases |budgets|
  {
    if budgets != [] {
      StageAgain(files, patches, now);
      ApplyEffect(now, patches, budgets[0]);
      TriesStayBetween(files, patches, Apply(now, patches, budgets[0]).0, budgets[1..]);
    }
  }

  /** However many runs died on the way, a run that gets through leaves the files one clean run leaves. */
  lemma TriesConverge(files: Files, patches: seq<Patch>, budgets: seq<nat>, budget: nat)
    requires NeverUndone(patches) && Stage(files, NOTHING, patches).Some?
    requires budget >= |PathsOf([], patches)|
    ensures Apply(Tries(files, patches, budgets), patches, budget).0 == Apply(files, patches, budget).0
    ensures Apply(Tries(files, patches, budgets), patches, budget).1.Changed?
  {
    TriesStayBetween(files, patches, files, budgets);
    StageAgain(files, patches, Tries(files, patches, budgets));
    ApplyEffect(Tries(files, patches, budgets), patches, budget);
    ApplyEffect(files, patches, budget);
  }

  /** A run after a completed one changes no file. */
  lemma DoneChangesNothing(files: Files, patches: seq<Patch>, budget: nat, again: nat)
    requires NeverUndone(patches) && Apply(files, patches, budget).1.Changed?
    ensures var done := Apply(files, patches, budget).0;
            Apply(done, patches, again) == (done, Changed(0))
  {
    var goal := Finished(files, patches);
    ApplyEffect(files, patches, budget);
    StageAgain(files, patches, goal);
    var staged := Stage(goal, NOTHING, patches).value;
    StagedIsOnDisk(goal, NOTHING, patches);
    NothingToWrite(goal, staged.order, staged.texts, again, 0);
  }

  /* ---- Exactly when a run can be repeated ---- */

  /** The text of a file after its patches, from the text before; a caller can work it out beforehand. */
  function Patched(files: Files, patches: seq<Patch>, path: string): string
    requires Patchable(files, NOTHING, patches, path)
  {
    PatchAll(files[path], On(patches, path)).value
  }

  /** The patches of the file apply a second time, to the text they leave. */
  predicate PatchesTwice(files: Files, patches: seq<Patch>, path: string) {
    Patchable(files, NOTHING, patches, path) && PatchAll(Patched(files, patches, path), On(patches, path)).Some?
  }

  /** And the second time they change nothing. */
  predicate PatchesOnce(files: Files, patches: seq<Patch>, path: string) {
    && Patchable(files, NOTHING, patches, path)
    && PatchAll(Patched(files, patches, path), On(patches, path)) == Some(Patched(files, patches, path))
  }

  lemma FinishedIsPatched(files: Files, patches: seq<Patch>, path: string)
    requires Stage(files, NOTHING, patches).Some? && On(patches, path) != []
    ensures Patchable(files, NOTHING, patches, path) && path in Finished(files, patches)
    ensures Finished(files, patches)[path] == Patched(files, patches, path)
  {
    StageIsPerFile(files, NOTHING, patches);
    FinishedText(files, patches, path);
  }

  /** After a completed run the next one is accepted exactly when the patches of every file apply twice. */
  lemma RerunAcceptedExactly(files: Files, patches: seq<Patch>, budget: nat, again: nat)
    requires Apply(files, patches, budget).1.Changed?
    ensures Apply(Apply(files, patches, budget).0, patches, again).1 != Refused
            <==> forall path :: On(patches, path) != [] ==> PatchesTwice(files, patches, path)
  {
    ApplyEffect(files, patches, budget);
    var done := Finished(files, patches);
    RefusedExactly(done, patches, again);
    forall path | On(patches, path) != []
      ensures Patchable(done, NOTHING, patches, path) <==> PatchesTwice(files, patches, path)
    {
      FinishedIsPatched(files, patches, path);
    }
  }

  /** And it changes 0 files exactly when the second time changes no file's text. */
  lemma RerunChangesNothingExactly(files: Files, patches: seq<Patch>, budget: nat, again: nat)
    requires Apply(files, patches, budget).1.Changed?
    ensures var done := Apply(files, patches, budget).0;
            Apply(done, patches, again) == (done, Changed(0))
            <==> forall path :: On(patches, path) != [] ==> PatchesOnce(files, patches, path)
  {
    ApplyEffect(files, patches, budget);
    RerunAcceptedExactly(files, patches, budget, again);
    var done := Finished(files, patches);
    if forall path :: On(patches, path) != [] ==> PatchesOnce(files, patches, path) {
      forall path | On(patches, path) != [] ensures PatchesTwice(files, patches, path) {
        assert PatchesOnce(files, patches, path);
      }
      RepeatedTexts(files, patches, done);
      var staged := Stage(done, NOTHING, patches).value;
      StagedIsOnDisk(done, NOTHING, patches);
      NothingToWrite(done, staged.order, staged.texts, again, 0);
    } else if Apply(done, patches, again) == (done, Changed(0)) {
      var path :| On(patches, path) != [] && !PatchesOnce(files, patches, path);
      ApplyEffect(done, patches, again);
      FinishedIsPatched(files, patches, path);
      FinishedIsPatched(done, patches, path);
    }
  }

  lemma RepeatedTexts(files: Files, patches: seq<Patch>, done: Files)
    requires Stage(files, NOTHING, patches).Some? && done == Finished(files, patches)
    requires forall path :: On(patches, path) != [] ==> PatchesOnce(files, patches, path)
    ensures Stage(done, NOTHING, patches).Some?
    ensures var staged := Stage(done, NOTHING, patches).value;
            forall path :: path in staged.order ==> path in staged.texts && path in done && done[path] == staged.texts[path]
  {
    forall path | On(patches, path) != [] ensures Patchable(done, NOTHING, patches, path) {
      assert PatchesOnce(files, patches, path);
      FinishedIsPatched(files, patches, path);
    }
    StageIsPerFile(done, NOTHING, patches);
    StagedIsOnDisk(done, NOTHING, patches);
    var staged := Stage(done, NOTHING, patches).value;
    forall path | path in staged.order ensures done[path] == staged.texts[path] {
      assert PatchesOnce(files, patches, path);
      FinishedIsPatched(files, patches, path);
      FinishedText(done, patches, path);
    }
  }

  /** A patch leaves a text alone exactly when its replacement is there. */
  lemma PatchIsIdleExactly(s: string, patch: Patch)
    ensures PatchText(s, patch) == Some(s) <==> Contains(s, patch.replacement)
  {
    if PatchText(s, patch) == Some(s) { PatchLeavesReplacement(s, patch); }
  }

  /** Where a letter stands in a text of one or two letters. */
  lemma FindLetter(s: string, d: char)
    requires 1 <= |s| <= 2
    ensures Find(s, [d], 0) == if s[0] == d then Some(0) else if |s| == 2 && s[1] == d then Some(1) else None
  {
    var p := [d];
    assert p[0] == d;
    assert At(s, p, 0) <==> s[0] == d by { assert s[0 + 0] == s[0]; }
    if |s| == 2 { assert At(s, p, 1) <==> s[1] == d by { assert s[1 + 0] == s[1]; } }
  }

  lemma PatchLetter(s: string, patch: Patch, c: char, d: char)
    requires 1 <= |s| <= 2 && patch.original == [c] && patch.replacement == [d]
    ensures PatchText(s, patch)
            == if d in s then Some(s)
               else if s[0] == c then Some([d] + s[1..])
               else if c in s then Some([s[0], d])
               else None
  {
    FindLetter(s, c);
    FindLetter(s, d);
    if s[0] == c {
      assert Splice(s, 0, 1, [d]) == [d] + s[1..];
    } else if |s| == 2 && s[1] == c {
      assert Splice(s, 1, 1, [d]) == [s[0], d];
    }
  }

  lemma PatchTwoLetters(s: string, p: Patch, q: Patch)
    ensures PatchAll(s, [p, q]) == if PatchText(s, p).None? then None else PatchText(PatchText(s, p).value, q)
  {
    assert [p, q][1..] == [q] && [q][1..] == [];
    if PatchText(s, p).Some? {
      var t := PatchText(s, p).value;
      if PatchText(t, q).Some? { assert PatchAll(PatchText(t, q).value, []) == PatchText(t, q); }
    }
  }

  /**
   Which of the two happens depends on the text, not only on the list: with the second patch undoing the
   first, a text of one anchor cannot be patched twice, and one of two anchors can, but changes again.
   */
  lemma UndoneDependsOnText(a: char, b: char, c: char)
    requires a != b && b != c && a != c
    ensures var patches := [Patch("f", [a], [b]), Patch("f", [b], [c])];
            && PatchAll([a], patches) == Some([c]) && PatchAll([c], patches) == None
            && PatchAll([a, a], patches) == Some([c, a]) && PatchAll([c, a], patches) == Some([c, b])
  {
    var p, q := Patch("f", [a], [b]), Patch("f", [b], [c]);
    PatchTwoLetters([a], p, q);
    PatchLetter([a], p, a, b);
    PatchLetter([b], q, b, c);
    assert [b] + [a][1..] == [b] && [c] + [b][1..] == [c];
    PatchTwoLetters([c], p, q);
    PatchLetter([c], p, a, b);
    PatchTwoLetters([a, a], p, q);
    PatchLetter([a, a], p, a, b);
    assert [b] + [a, a][1..] == [b, a];
    PatchLetter([b, a], q, b, c);
    assert [c] + [b, a][1..] == [c, a];
    PatchTwoLetters([c, a], p, q);
    PatchLetter([c, a], p, a, b);
    PatchLetter([c, b], q, b, c);
  }
}
