/**
 The U+0000 repair of values bound for PostgreSQL: the recursive repair, the JSON serializer with
 its fast path, and the DBAPI guard behind it.
 */
module NulRepair {
  import opened JsonText

  /** The six characters backslash, u, 0, 0, 0, 0. */
  const NUL_ESCAPE: Str := [92, 117, 48, 48, 48, 48]

  function RepairString(s: Str): Str {
    if s == [] then [] else (if s[0] == 0 then NUL_ESCAPE else [s[0]]) + RepairString(s[1..])
  }

  function Nuls(s: Str): nat {
    if s == [] then 0 else (if s[0] == 0 then 1 else 0) + Nuls(s[1..])
  }

  function RepairKey(k: Key): Key {
    match k
    case StrKey(text) => StrKey(RepairString(text))
    case TupleKey(parts) => TupleKey(seq(|parts|, i requires 0 <= i < |parts| => RepairKey(parts[i])))
    case _ => k
  }

  function KeyNuls(k: Key): nat
    decreases k, 1
  {
    match k
    case StrKey(text) => Nuls(text)
    case TupleKey(parts) => PartNuls(parts)
    case _ => 0
  }

  function PartNuls(parts: seq<Key>): nat
    decreases parts, 0
  {
    if parts == [] then 0 else KeyNuls(parts[0]) + PartNuls(parts[1..])
  }

  datatype Repaired<+T> = Repaired(value: T, count: nat)

  predicate HasKey(pairs: seq<Pair>, key: Key) {
    exists i :: 0 <= i < |pairs| && pairs[i].key == key
  }

  /** `repair_postgres_nul`. */
  function Repair(v: Value): Result<Repaired<Value>>
    decreases v, 1
  {
    match v
    case String(s) => Ok(Repaired(String(RepairString(s)), Nuls(s)))
    case List(items) =>
      (match RepairItems(items) case Ok(r) => Ok(Repaired(List(r.value), r.count)) case _ => Collision)
    case Tuple(items) =>
      (match RepairItems(items) case Ok(r) => Ok(Repaired(Tuple(r.value), r.count)) case _ => Collision)
    case Dict(pairs) =>
      (match RepairPairs(pairs) case Ok(r) => Ok(Repaired(Dict(r.value), r.count)) case _ => Collision)
    case _ => Ok(Repaired(v, 0))
  }

  function RepairItems(items: seq<Value>): Result<Repaired<seq<Value>>>
    decreases items, 0
  {
    if items == [] then Ok(Repaired([], 0))
    else
      match RepairItems(items[..|items| - 1])
      case Ok(done) =>
        (match Repair(items[|items| - 1])
         case Ok(last) => Ok(Repaired(done.value + [last.value], done.count + last.count))
         case _ => Collision)
      case _ => Collision
  }

  function RepairPair(p: Pair): Result<Repaired<Pair>>
    decreases p, 0
  {
    match Repair(p.value)
    case Ok(r) => Ok(Repaired(Pair(RepairKey(p.key), r.value), KeyNuls(p.key) + r.count))
    case _ => Collision
  }

  function RepairPairs(pairs: seq<Pair>): Result<Repaired<seq<Pair>>>
    decreases pairs, 0
  {
    if pairs == [] then Ok(Repaired([], 0))
    else
      match RepairPairs(pairs[..|pairs| - 1])
      case Ok(done) =>
        (match RepairPair(pairs[|pairs| - 1])
         case Ok(last) =>
           if HasKey(done.value, last.value.key) then Collision
           else Ok(Repaired(done.value + [last.value], done.count + last.count))
         case _ => Collision)
      case _ => Collision
  }

  method RepairPostgresNul(v: Value) returns (r: Result<Repaired<Value>>)
    ensures r == Repair(v)
    decreases v, 1
  {
    match v
    case String(s) =>
      var count := Nuls(s);
      RepairedStringWithoutNul(s);
      return Ok(Repaired(if count > 0 then String(RepairString(s)) else v, count));
    case List(items) =>
      var repaired := RepairSequence(items);
      return if repaired.Ok? then Ok(Repaired(List(repaired.value.value), repaired.value.count)) else Collision;
    case Tuple(items) =>
      var repaired := RepairSequence(items);
      return if repaired.Ok? then Ok(Repaired(Tuple(repaired.value.value), repaired.value.count)) else Collision;
    case Dict(pairs) =>
      var repaired := RepairMapping(pairs);
      return if repaired.Ok? then Ok(Repaired(Dict(repaired.value.value), repaired.value.count)) else Collision;
    case _ =>
      return Ok(Repaired(v, 0));
  }

  method RepairSequence(items: seq<Value>) returns (r: Result<Repaired<seq<Value>>>)
    ensures r == RepairItems(items)
    decreases items, 0
  {
    var repaired, i := [], 0;
    var count: nat := 0;
    while i < |items|
      invariant 0 <= i <= |items|
      invariant RepairItems(items[..i]) == Ok(Repaired(repaired, count))
    {
      var item := RepairPostgresNul(items[i]);
      assert items[..i + 1][..i] == items[..i];
      if !item.Ok? {
        ItemCollides(items, i + 1);
        return Collision;
      }
      repaired, count, i := repaired + [item.value.value], count + item.value.count, i + 1;
    }
    assert items[..i] == items;
    return Ok(Repaired(repaired, count));
  }

  method RepairMapping(pairs: seq<Pair>) returns (r: Result<Repaired<seq<Pair>>>)
    ensures r == RepairPairs(pairs)
    decreases pairs, 0
  {
    var repaired, i := [], 0;
    var count: nat := 0;
    while i < |pairs|
      invariant 0 <= i <= |pairs|
      invariant RepairPairs(pairs[..i]) == Ok(Repaired(repaired, count))
    {
      var p := pairs[i];
      assert p.value < p;
      var key := RepairKey(p.key);
      var value := RepairPostgresNul(p.value);
      assert pairs[..i + 1][..i] == pairs[..i];
      if !value.Ok? || HasKey(repaired, key) {
        PairCollides(pairs, i + 1);
        return Collision;
      }
      repaired := repaired + [Pair(key, value.value.value)];
      count, i := count + KeyNuls(p.key) + value.value.count, i + 1;
    }
    assert pairs[..i] == pairs;
    return Ok(Repaired(repaired, count));
  }

  lemma ItemCollides(items: seq<Value>, n: nat)
    requires n <= |items| && !RepairItems(items[..n]).Ok?
    ensures RepairItems(items) == Collision
  {
    if n < |items| {
      assert items[..|items| - 1][..n] == items[..n];
      ItemCollides(items[..|items| - 1], n);
    } else {
      assert items[..n] == items;
    }
  }

  lemma PairCollides(pairs: seq<Pair>, n: nat)
    requires n <= |pairs| && !RepairPairs(pairs[..n]).Ok?
    ensures RepairPairs(pairs) == Collision
  {
    if n < |pairs| {
      assert pairs[..|pairs| - 1][..n] == pairs[..n];
      PairCollides(pairs[..|pairs| - 1], n);
    } else {
      assert pairs[..n] == pairs;
    }
  }

  /* ---- What repair means ---- */

  predicate CleanString(s: Str) {
    forall i :: 0 <= i < |s| ==> s[i] != 0
  }

  predicate CleanKey(k: Key) {
    match k
    case StrKey(text) => CleanString(text)
    case TupleKey(parts) => forall i :: 0 <= i < |parts| ==> CleanKey(parts[i])
    case _ => true
  }

  /** No string and no key of the value holds U+0000. */
  predicate Clean(v: Value) {
    match v
    case String(s) => CleanString(s)
    case List(items) => forall i :: 0 <= i < |items| ==> Clean(items[i])
    case Tuple(items) => forall i :: 0 <= i < |items| ==> Clean(items[i])
    case Dict(pairs) =>
      forall i :: 0 <= i < |pairs| ==> CleanKey(pairs[i].key) && Clean(pairs[i].value)
    case _ => true
  }

  /** The pieces with a text between any two of them. */
  function Joined(pieces: seq<Str>, between: Str): Str
    requires pieces != []
  {
    if |pieces| == 1 then pieces[0] else pieces[0] + between + Joined(pieces[1..], between)
  }

  /** The texts are the same pieces, without U+0000, joined once by it and once by backslash, u and four zeros. */
  predicate ShownBy(pieces: seq<Str>, s: Str, r: Str) {
    && pieces != [] && (forall i :: 0 <= i < |pieces| ==> CleanString(pieces[i]))
    && s == Joined(pieces, [0]) && r == Joined(pieces, [92, 117, 48, 48, 48, 48])
  }

  /** In `r` each U+0000 of `s` is shown by its six-character escape, and everything else is as in `s`. */
  ghost predicate Shown(s: Str, r: Str) {
    exists pieces :: ShownBy(pieces, s, r)
  }

  ghost predicate ShownKey(k: Key, r: Key) {
    match k
    case StrKey(text) => r.StrKey? && Shown(text, r.text)
    case TupleKey(parts) =>
      r.TupleKey? && |r.parts| == |parts| && forall i :: 0 <= i < |parts| ==> ShownKey(parts[i], r.parts[i])
    case _ => r == k
  }

  /** Same containers with the same members in the same places, every string and every key as `Shown` says. */
  ghost predicate ShownValue(v: Value, r: Value) {
    match v
    case String(s) => r.String? && Shown(s, r.s)
    case List(items) => r.List? && |r.items| == |items| && forall i :: 0 <= i < |items| ==> ShownValue(items[i], r.items[i])
    case Tuple(items) => r.Tuple? && |r.items| == |items| && forall i :: 0 <= i < |items| ==> ShownValue(items[i], r.items[i])
    case Dict(pairs) =>
      r.Dict? && |r.pairs| == |pairs|
      && forall i :: 0 <= i < |pairs| ==>
           ShownValue(pairs[i].value, r.pairs[i].value) && ShownKey(pairs[i].key, r.pairs[i].key)
    case _ => r == v
  }

  /** A string cut at each U+0000. */
  function Pieces(s: Str): (p: seq<Str>)
    ensures p != []
  {
    if s == [] then [[]]
    else if s[0] == 0 then [[]] + Pieces(s[1..])
    else [[s[0]] + Pieces(s[1..])[0]] + Pieces(s[1..])[1..]
  }

  lemma JoinedFirst(c: CodePoint, first: Str, rest: seq<Str>, between: Str)
    ensures Joined([[c] + first] + rest, between) == [c] + Joined([first] + rest, between)
  {
    assert ([[c] + first] + rest)[1..] == rest && ([first] + rest)[1..] == rest;
    if rest != [] {
      assert ([c] + first) + between + Joined(rest, between) == [c] + (first + between + Joined(rest, between));
    }
  }

  lemma NulAhead(pieces: seq<Str>, s: Str, r: Str)
    requires ShownBy(pieces, s, r)
    ensures ShownBy([[]] + pieces, [0] + s, NUL_ESCAPE + r)
  {
    assert ([[]] + pieces)[1..] == pieces;
    assert [] + [0] + s == [0] + s && [] + NUL_ESCAPE + r == NUL_ESCAPE + r;
  }

  lemma CharacterAhead(c: CodePoint, pieces: seq<Str>, s: Str, r: Str)
    requires ShownBy(pieces, s, r) && c != 0
    ensures ShownBy([[c] + pieces[0]] + pieces[1..], [c] + s, [c] + r)
  {
    assert pieces == [pieces[0]] + pieces[1..];
    JoinedFirst(c, pieces[0], pieces[1..], [0]);
    JoinedFirst(c, pieces[0], pieces[1..], NUL_ESCAPE);
  }

  lemma PiecesAreShown(s: Str)
    ensures ShownBy(Pieces(s), s, RepairString(s)) && |Pieces(s)| == Nuls(s) + 1
  {
    if s != [] {
      PiecesAreShown(s[1..]);
      assert s == [s[0]] + s[1..];
      if s[0] == 0 {
        NulAhead(Pieces(s[1..]), s[1..], RepairString(s[1..]));
      } else {
        CharacterAhead(s[0], Pieces(s[1..]), s[1..], RepairString(s[1..]));
      }
    }
  }

  lemma RepairAppends(a: Str, b: Str)
    ensures RepairString(a + b) == RepairString(a) + RepairString(b)
    ensures Nuls(a + b) == Nuls(a) + Nuls(b)
  {
    if a == [] {
      assert a + b == b;
    } else {
      assert (a + b)[1..] == a[1..] + b;
      RepairAppends(a[1..], b);
    }
  }

  /** However often U+0000 stands in a string: each is shown where it stood, and counted. */
  lemma {:induction false} JoinedIsShown(pieces: seq<Str>)
    requires pieces != [] && forall i :: 0 <= i < |pieces| ==> CleanString(pieces[i])
    ensures RepairString(Joined(pieces, [0])) == Joined(pieces, [92, 117, 48, 48, 48, 48])
    ensures Nuls(Joined(pieces, [0])) == |pieces| - 1
  {
    RepairedStringWithoutNul(pieces[0]);
    if |pieces| > 1 {
      JoinedIsShown(pieces[1..]);
      var rest := Joined(pieces[1..], [0]);
      RepairAppends(pieces[0] + [0], rest);
      RepairAppends(pieces[0], [0]);
      assert RepairString([0]) == NUL_ESCAPE && Nuls([0]) == 1;
    }
  }

  /** A string is shown in one way only, which is what repair gives. */
  lemma ShownExactly(s: Str, r: Str)
    ensures Shown(s, r) <==> r == RepairString(s)
  {
    PiecesAreShown(s);
    if Shown(s, r) {
      var pieces :| ShownBy(pieces, s, r);
      JoinedIsShown(pieces);
    }
  }

  lemma RepairOfString(s: Str)
    ensures Repair(String(s)) == Ok(Repaired(String(RepairString(s)), Nuls(s)))
  {
  }

  /** So for a value that is a string. */
  lemma StringsAreRepaired(pieces: seq<Str>)
    requires pieces != [] && forall i :: 0 <= i < |pieces| ==> CleanString(pieces[i])
    ensures Repair(String(Joined(pieces, [0])))
            == Ok(Repaired(String(Joined(pieces, [92, 117, 48, 48, 48, 48])), |pieces| - 1))
  {
    JoinedIsShown(pieces);
    RepairOfString(Joined(pieces, [0]));
  }

  /** The number of U+0000 code points in all strings and keys of the value. */
  function CountNuls(v: Value): nat
    decreases v, 1
  {
    match v
    case String(s) => Nuls(s)
    case List(items) => CountItems(items)
    case Tuple(items) => CountItems(items)
    case Dict(pairs) => CountPairs(pairs)
    case _ => 0
  }

  function CountItems(items: seq<Value>): nat
    decreases items, 0
  {
    if items == [] then 0 else CountNuls(items[0]) + CountItems(items[1..])
  }

  function CountPair(p: Pair): nat
    decreases p, 0
  {
    KeyNuls(p.key) + CountNuls(p.value)
  }

  function CountPairs(pairs: seq<Pair>): nat
    decreases pairs, 0
  {
    if pairs == [] then 0 else CountPair(pairs[0]) + CountPairs(pairs[1..])
  }

  lemma CountItemsAppend(items: seq<Value>, v: Value)
    ensures CountItems(items + [v]) == CountItems(items) + CountNuls(v)
  {
    if items == [] {
      assert items + [v] == [v];
    } else {
      assert (items + [v])[1..] == items[1..] + [v];
      CountItemsAppend(items[1..], v);
    }
  }

  lemma CountPairsAppend(pairs: seq<Pair>, p: Pair)
    ensures CountPairs(pairs + [p]) == CountPairs(pairs) + CountPair(p)
  {
    if pairs == [] {
      assert pairs + [p] == [p];
    } else {
      assert (pairs + [p])[1..] == pairs[1..] + [p];
      CountPairsAppend(pairs[1..], p);
    }
  }

  lemma RepairedStringIsClean(s: Str)
    ensures CleanString(RepairString(s))
  {
    if s != [] {
      RepairedStringIsClean(s[1..]);
      var head := if s[0] == 0 then NUL_ESCAPE else [s[0]];
      forall i | 0 <= i < |RepairString(s)| ensures RepairString(s)[i] != 0 {
        if i >= |head| { assert RepairString(s)[i] == RepairString(s[1..])[i - |head|]; }
      }
    }
  }

  lemma RepairedStringWithoutNul(s: Str)
    ensures CleanString(s) <==> Nuls(s) == 0
    ensures CleanString(s) ==> RepairString(s) == s
  {
    if s != [] {
      RepairedStringWithoutNul(s[1..]);
      assert CleanString(s) <==> s[0] != 0 && CleanString(s[1..]) by {
        assert forall i :: 0 <= i < |s[1..]| ==> s[1..][i] == s[i + 1];
        assert forall i :: 1 <= i < |s| ==> s[i] == s[1..][i - 1];
      }
    }
  }

  lemma {:induction false} RepairedKeyIsClean(k: Key)
    ensures CleanKey(RepairKey(k)) && ShownKey(k, RepairKey(k))
  {
    match k
    case StrKey(text) =>
      RepairedStringIsClean(text);
      ShownExactly(text, RepairString(text));
    case TupleKey(parts) =>
      forall i | 0 <= i < |parts| ensures CleanKey(RepairKey(parts[i])) && ShownKey(parts[i], RepairKey(parts[i])) {
        RepairedKeyIsClean(parts[i]);
      }
    case _ =>
  }

  lemma {:induction false} RepairedKeyWithoutNul(k: Key)
    ensures CleanKey(k) <==> KeyNuls(k) == 0
    ensures CleanKey(k) ==> RepairKey(k) == k
    decreases k, 1
  {
    match k
    case StrKey(text) => RepairedStringWithoutNul(text);
    case TupleKey(parts) =>
      RepairedPartsWithoutNul(parts);
      if CleanKey(k) { assert RepairKey(k).parts == parts; }
    case _ =>
  }

  lemma {:induction false} RepairedPartsWithoutNul(parts: seq<Key>)
    ensures (forall i :: 0 <= i < |parts| ==> CleanKey(parts[i])) <==> PartNuls(parts) == 0
    ensures forall i :: 0 <= i < |parts| && CleanKey(parts[i]) ==> RepairKey(parts[i]) == parts[i]
    decreases parts, 0
  {
    if parts != [] {
      RepairedKeyWithoutNul(parts[0]);
      RepairedPartsWithoutNul(parts[1..]);
      assert parts == [parts[0]] + parts[1..];
    }
  }

  /**
   A repaired value is the original with each U+0000, in strings and in keys, shown by its escape; it has
   none left, and the count is the exact total.
   */
  lemma {:induction false} RepairIsExact(v: Value)
    requires Repair(v).Ok?
    ensures Clean(Repair(v).value.value) && ShownValue(v, Repair(v).value.value)
    ensures Repair(v).value.count == CountNuls(v)
    decreases v, 1
  {
    match v
    case String(s) =>
      RepairedStringIsClean(s);
      ShownExactly(s, RepairString(s));
    case List(items) => ItemsAreExact(items);
    case Tuple(items) => ItemsAreExact(items);
    case Dict(pairs) => DictIsExact(pairs);
    case _ =>
  }

  lemma {:induction false} DictIsExact(pairs: seq<Pair>)
    requires RepairPairs(pairs).Ok?
    ensures var r := RepairPairs(pairs).value;
            Clean(Dict(r.value)) && ShownValue(Dict(pairs), Dict(r.value)) && r.count == CountPairs(pairs)
    decreases pairs, 1
  {
    PairsAreExact(pairs);
    forall i | 0 <= i < |pairs| ensures ShownKey(pairs[i].key, RepairKey(pairs[i].key)) {
      RepairedKeyIsClean(pairs[i].key);
    }
  }

  lemma {:induction false} ItemsAreExact(items: seq<Value>)
    requires RepairItems(items).Ok?
    ensures var r := RepairItems(items).value;
            |r.value| == |items| && r.count == CountItems(items)
            && forall i :: 0 <= i < |items| ==> Clean(r.value[i]) && ShownValue(items[i], r.value[i])
    decreases items, 0
  {
    if items != [] {
      var n := |items| - 1;
      ItemsAreExact(items[..n]);
      RepairIsExact(items[n]);
      assert items == items[..n] + [items[n]];
      CountItemsAppend(items[..n], items[n]);
    }
  }

  lemma {:induction false} PairIsExact(p: Pair)
    requires RepairPair(p).Ok?
    ensures var r := RepairPair(p).value;
            && r.count == CountPair(p)
            && Clean(r.value.value) && ShownValue(p.value, r.value.value)
            && r.value.key == RepairKey(p.key)
            && CleanKey(r.value.key)
    decreases p, 0
  {
    RepairIsExact(p.value);
    RepairedKeyIsClean(p.key);
  }

  lemma {:induction false} PairsAreExact(pairs: seq<Pair>)
    requires RepairPairs(pairs).Ok?
    ensures var r := RepairPairs(pairs).value;
            |r.value| == |pairs| && r.count == CountPairs(pairs)
            && forall i :: 0 <= i < |pairs| ==>
                 Clean(r.value[i].value) && ShownValue(pairs[i].value, r.value[i].value)
                 && r.value[i].key == RepairKey(pairs[i].key)
                 && CleanKey(r.value[i].key)
    decreases pairs, 0
  {
    if pairs != [] {
      var n := |pairs| - 1;
      PairsAreExact(pairs[..n]);
      PairIsExact(pairs[n]);
      assert pairs == pairs[..n] + [pairs[n]];
      CountPairsAppend(pairs[..n], pairs[n]);
    }
  }

  /* ---- The count, over all text of the value ---- */

  /** All strings and all keys of the value, one after the other. */
  function Flat(v: Value): Str
    decreases v, 1
  {
    match v
    case String(s) => s
    case List(items) => FlatItems(items)
    case Tuple(items) => FlatItems(items)
    case Dict(pairs) => FlatPairs(pairs)
    case _ => []
  }

  function FlatItems(items: seq<Value>): Str
    decreases items, 0
  {
    if items == [] then [] else Flat(items[0]) + FlatItems(items[1..])
  }

  function FlatPair(p: Pair): Str
    decreases p, 0
  {
    FlatKey(p.key) + Flat(p.value)
  }

  function FlatPairs(pairs: seq<Pair>): Str
    decreases pairs, 0
  {
    if pairs == [] then [] else FlatPair(pairs[0]) + FlatPairs(pairs[1..])
  }

  function FlatKey(k: Key): Str
    decreases k, 1
  {
    match k
    case StrKey(text) => text
    case TupleKey(parts) => FlatParts(parts)
    case _ => []
  }

  function FlatParts(parts: seq<Key>): Str
    decreases parts, 0
  {
    if parts == [] then [] else FlatKey(parts[0]) + FlatParts(parts[1..])
  }

  lemma {:induction false} NulsAreCounted(s: Str)
    ensures Nuls(s) == multiset(s)[0]
  {
    if s != [] {
      NulsAreCounted(s[1..]);
      assert s == [s[0]] + s[1..];
    }
  }

  lemma {:induction false} KeyIsCounted(k: Key)
    ensures KeyNuls(k) == multiset(FlatKey(k))[0]
    decreases k, 1
  {
    match k
    case StrKey(text) => NulsAreCounted(text);
    case TupleKey(parts) => PartsAreCounted(parts);
    case _ =>
  }

  lemma {:induction false} PartsAreCounted(parts: seq<Key>)
    ensures PartNuls(parts) == multiset(FlatParts(parts))[0]
    decreases parts, 0
  {
    if parts != [] {
      KeyIsCounted(parts[0]);
      PartsAreCounted(parts[1..]);
    }
  }

  lemma {:induction false} ValueIsCounted(v: Value)
    ensures CountNuls(v) == multiset(Flat(v))[0]
    decreases v, 1
  {
    match v
    case String(s) => NulsAreCounted(s);
    case List(items) => ItemsAreCounted(items);
    case Tuple(items) => ItemsAreCounted(items);
    case Dict(pairs) => PairsAreCounted(pairs);
    case _ =>
  }

  lemma {:induction false} ItemsAreCounted(items: seq<Value>)
    ensures CountItems(items) == multiset(FlatItems(items))[0]
    decreases items, 0
  {
    if items != [] {
      ValueIsCounted(items[0]);
      ItemsAreCounted(items[1..]);
    }
  }

  lemma {:induction false} PairIsCounted(p: Pair)
    ensures CountPair(p) == multiset(FlatPair(p))[0]
    decreases p, 0
  {
    KeyIsCounted(p.key);
    ValueIsCounted(p.value);
  }

  lemma {:induction false} PairsAreCounted(pairs: seq<Pair>)
    ensures CountPairs(pairs) == multiset(FlatPairs(pairs))[0]
    decreases pairs, 0
  {
    if pairs != [] {
      PairIsCounted(pairs[0]);
      PairsAreCounted(pairs[1..]);
    }
  }

  /** The count of a repair is the number of U+0000 in all strings and keys of the value. */
  lemma RepairCountsAll(v: Value)
    requires Repair(v).Ok?
    ensures Repair(v).value.count == multiset(Flat(v))[0]
  {
    RepairIsExact(v);
    ValueIsCounted(v);
  }

  /** Some dictionary inside the value has two keys with the same repaired form. */
  predicate Collides(v: Value) {
    match v
    case List(items) => exists i :: 0 <= i < |items| && Collides(items[i])
    case Tuple(items) => exists i :: 0 <= i < |items| && Collides(items[i])
    case Dict(pairs) =>
      (exists i, j :: 0 <= i < j < |pairs| && RepairKey(pairs[i].key) == RepairKey(pairs[j].key))
      || exists i :: 0 <= i < |pairs| && Collides(pairs[i].value)
    case _ => false
  }

  /** Repair fails exactly on a key collision. */
  lemma {:induction false} RepairFailsOnCollision(v: Value)
    ensures Repair(v) == Collision <==> Collides(v)
    ensures Repair(v).Ok? <==> !Collides(v)
    decreases v, 1
  {
    match v
    case List(items) => ItemsFailOnCollision(items);
    case Tuple(items) => ItemsFailOnCollision(items);
    case Dict(pairs) => PairsFailOnCollision(pairs);
    case _ =>
  }

  lemma {:induction false} ItemsFailOnCollision(items: seq<Value>)
    ensures RepairItems(items).Ok? <==> forall i :: 0 <= i < |items| ==> !Collides(items[i])
    decreases items, 0
  {
    if items != [] {
      var n := |items| - 1;
      ItemsFailOnCollision(items[..n]);
      RepairFailsOnCollision(items[n]);
      assert forall i :: 0 <= i < n ==> items[..n][i] == items[i];
    }
  }

  lemma {:induction false} PairFailsOnCollision(p: Pair)
    ensures RepairPair(p).Ok? <==> !Collides(p.value)
    decreases p, 0
  {
    RepairFailsOnCollision(p.value);
  }

  ghost predicate PairsDoNotCollide(pairs: seq<Pair>) {
    && (forall i :: 0 <= i < |pairs| ==> !Collides(pairs[i].value))
    && (forall i, j :: 0 <= i < j < |pairs| ==> RepairKey(pairs[i].key) != RepairKey(pairs[j].key))
  }

  lemma LastPairCollides(pairs: seq<Pair>, p: Pair)
    ensures PairsDoNotCollide(pairs + [p]) <==>
              PairsDoNotCollide(pairs) && !Collides(p.value)
              && forall i :: 0 <= i < |pairs| ==> RepairKey(pairs[i].key) != RepairKey(p.key)
  {
    var all := pairs + [p];
    assert all[|pairs|] == p && forall i :: 0 <= i < |pairs| ==> all[i] == pairs[i];
  }

  lemma RepairedKeysOf(pairs: seq<Pair>, key: Key)
    requires RepairPairs(pairs).Ok?
    ensures HasKey(RepairPairs(pairs).value.value, key)
       <==> exists i :: 0 <= i < |pairs| && RepairKey(pairs[i].key) == key
  {
    PairsAreExact(pairs);
  }

  lemma {:induction false} PairsFailOnCollision(pairs: seq<Pair>)
    ensures RepairPairs(pairs).Ok? <==> PairsDoNotCollide(pairs)
    decreases pairs, 0
  {
    if pairs != [] {
      var n := |pairs| - 1;
      var before := pairs[..n];
      assert pairs == before + [pairs[n]];
      PairsFailOnCollision(before);
      PairFailsOnCollision(pairs[n]);
      LastPairCollides(before, pairs[n]);
      if RepairPairs(before).Ok? { RepairedKeysOf(before, RepairKey(pairs[n].key)); }
    }
  }

  /** On a value without U+0000 repair is the identity and counts nothing. */
  lemma {:induction false} CleanIsFixed(v: Value)
    requires Clean(v) && WellFormed(v)
    ensures Repair(v) == Ok(Repaired(v, 0))
    decreases v, 1
  {
    match v
    case String(s) => RepairedStringWithoutNul(s);
    case List(items) => ItemsAreFixed(items);
    case Tuple(items) => ItemsAreFixed(items);
    case Dict(pairs) => PairsAreFixed(pairs);
    case _ =>
  }

  lemma {:induction false} ItemsAreFixed(items: seq<Value>)
    requires forall i :: 0 <= i < |items| ==> Clean(items[i]) && WellFormed(items[i])
    ensures RepairItems(items) == Ok(Repaired(items, 0))
    decreases items, 0
  {
    if items != [] {
      var n := |items| - 1;
      ItemsAreFixed(items[..n]);
      CleanIsFixed(items[n]);
      assert items == items[..n] + [items[n]];
    }
  }

  lemma {:induction false} PairIsFixed(p: Pair)
    requires CleanKey(p.key) && Clean(p.value) && WellFormed(p.value)
    ensures RepairPair(p) == Ok(Repaired(p, 0))
    decreases p, 0
  {
    CleanIsFixed(p.value);
    RepairedKeyWithoutNul(p.key);
  }

  lemma {:induction false} PairsAreFixed(pairs: seq<Pair>)
    requires forall i :: 0 <= i < |pairs| ==>
               CleanKey(pairs[i].key) && Clean(pairs[i].value) && WellFormed(pairs[i].value)
    requires forall i, j :: 0 <= i < j < |pairs| ==> pairs[i].key != pairs[j].key
    ensures RepairPairs(pairs) == Ok(Repaired(pairs, 0))
    decreases pairs, 0
  {
    if pairs != [] {
      var n := |pairs| - 1;
      PairsAreFixed(pairs[..n]);
      PairIsFixed(pairs[n]);
      assert pairs == pairs[..n] + [pairs[n]];
    }
  }

  /** Repair keeps values well formed. */
  lemma {:induction false} RepairKeepsWellFormed(v: Value)
    requires WellFormed(v) && Repair(v).Ok?
    ensures WellFormed(Repair(v).value.value)
    decreases v, 1
  {
    match v
    case List(items) => ItemsKeepWellFormed(items);
    case Tuple(items) => ItemsKeepWellFormed(items);
    case Dict(pairs) =>
      PairsKeepWellFormed(pairs);
      PairsAreExact(pairs);
      PairsFailOnCollision(pairs);
    case _ =>
  }

  lemma {:induction false} ItemsKeepWellFormed(items: seq<Value>)
    requires RepairItems(items).Ok? && forall i :: 0 <= i < |items| ==> WellFormed(items[i])
    ensures forall i :: 0 <= i < |RepairItems(items).value.value| ==> WellFormed(RepairItems(items).value.value[i])
    decreases items, 0
  {
    if items != [] {
      ItemsKeepWellFormed(items[..|items| - 1]);
      RepairKeepsWellFormed(items[|items| - 1]);
    }
  }

  lemma {:induction false} PairKeepsWellFormed(p: Pair)
    requires RepairPair(p).Ok? && WellFormed(p.value)
    ensures WellFormed(RepairPair(p).value.value.value)
    decreases p, 0
  {
    RepairKeepsWellFormed(p.value);
  }

  lemma {:induction false} PairsKeepWellFormed(pairs: seq<Pair>)
    requires RepairPairs(pairs).Ok? && forall i :: 0 <= i < |pairs| ==> WellFormed(pairs[i].value)
    ensures forall i :: 0 <= i < |RepairPairs(pairs).value.value| ==>
              WellFormed(RepairPairs(pairs).value.value[i].value)
    decreases pairs, 0
  {
    if pairs != [] {
      PairsKeepWellFormed(pairs[..|pairs| - 1]);
      PairKeepsWellFormed(pairs[|pairs| - 1]);
    }
  }

  /** A second repair changes nothing and counts nothing. */
  lemma RepairIsIdempotent(v: Value)
    requires WellFormed(v) && Repair(v).Ok?
    ensures Repair(Repair(v).value.value) == Ok(Repaired(Repair(v).value.value, 0))
  {
    RepairIsExact(v);
    RepairKeepsWellFormed(v);
    CleanIsFixed(Repair(v).value.value);
  }

  /* ---- The serializer ---- */

  predicate At(t: Str, p: Str, i: int) {
    0 <= i <= |t| - |p| && t[i..i + |p|] == p
  }

  predicate Contains(t: Str, p: Str) {
    exists i :: 0 <= i <= |t| && At(t, p, i)
  }

  /** `_postgres_json_serializer`: the text, and how many code points it reports as repaired. */
  function Serialize(v: Value): Result<Repaired<Str>> {
    match Dumps(v)
    case Ok(encoded) =>
      if !Contains(encoded, NUL_ESCAPE) then Ok(Repaired(encoded, 0))
      else
        (match Repair(v)
         case Ok(r) =>
           if r.count > 0 then
             (match Dumps(r.value) case Ok(again) => Ok(Repaired(again, r.count)) case _ => TypeError)
           else Ok(Repaired(encoded, 0))
         case _ => Collision)
    case _ => TypeError
  }

  /** The simple form: repair, then encode. */
  function RepairThenEncode(v: Value): Result<Repaired<Str>> {
    match Repair(v)
    case Ok(r) => (match Dumps(r.value) case Ok(t) => Ok(Repaired(t, r.count)) case _ => TypeError)
    case _ => Collision
  }

  lemma ContainsIn(a: Str, b: Str, c: Str)
    requires Contains(b, NUL_ESCAPE)
    ensures Contains(a + b + c, NUL_ESCAPE)
  {
    var i :| 0 <= i <= |b| && At(b, NUL_ESCAPE, i);
    assert At(a + b + c, NUL_ESCAPE, |a| + i);
  }

  lemma ContainsLeft(a: Str, b: Str)
    requires Contains(a, NUL_ESCAPE)
    ensures Contains(a + b, NUL_ESCAPE)
  {
    ContainsIn([], a, b);
    assert [] + a + b == a + b;
  }

  lemma ContainsRight(a: Str, b: Str)
    requires Contains(b, NUL_ESCAPE)
    ensures Contains(a + b, NUL_ESCAPE)
  {
    ContainsIn(a, b, []);
    assert a + b + [] == a + b;
  }

  /** How a list of several items, or a dictionary of several pairs, is encoded. */
  lemma EncodeItemsSplits(items: seq<Value>)
    requires |items| > 1 && forall i :: 0 <= i < |items| ==> Encodable(items[i])
    ensures EncodeItems(items) == Encode(items[0]) + ([44, 32] + EncodeItems(items[1..]))
  {
  }

  lemma EncodePairsSplits(pairs: seq<Pair>)
    requires |pairs| > 1 && PairsReady(pairs)
    ensures EncodePairs(pairs) == EncodePair(pairs[0]) + ([44, 32] + EncodePairs(pairs[1..]))
  {
  }

  lemma StringNulShows(s: Str)
    requires !CleanString(s)
    ensures Contains(Quote(s), NUL_ESCAPE)
  {
    NulShowsInChars(s);
    ContainsIn([34], EncodeChars(s), [34]);
  }

  lemma NulShowsInChars(s: Str)
    requires !CleanString(s)
    ensures Contains(EncodeChars(s), NUL_ESCAPE)
  {
    if s[0] == 0 {
      assert EncodeChar(0) == NUL_ESCAPE;
      assert At(NUL_ESCAPE, NUL_ESCAPE, 0);
      ContainsLeft(EncodeChar(s[0]), EncodeChars(s[1..]));
    } else {
      var i :| 0 <= i < |s| && s[i] == 0;
      assert s[1..][i - 1] == 0;
      NulShowsInChars(s[1..]);
      ContainsRight(EncodeChar(s[0]), EncodeChars(s[1..]));
    }
  }

  /** Any U+0000 in an encodable value shows in its encoding, so the fast path never misses one. */
  lemma {:induction false} NulShows(v: Value)
    requires Encodable(v) && WellFormed(v) && !Clean(v)
    ensures Contains(Encode(v), NUL_ESCAPE)
    decreases v, 1
  {
    match v
    case String(s) => StringNulShows(s);
    case List(items) =>
      NulShowsInItems(items);
      ContainsIn([91], EncodeItems(items), [93]);
    case Tuple(items) =>
      NulShowsInItems(items);
      ContainsIn([91], EncodeItems(items), [93]);
    case Dict(pairs) =>
      NulShowsInPairs(pairs);
      ContainsIn([123], EncodePairs(pairs), [125]);
    case _ =>
  }

  lemma {:induction false} NulShowsInItems(items: seq<Value>)
    requires forall i :: 0 <= i < |items| ==> Encodable(items[i]) && WellFormed(items[i])
    requires exists i :: 0 <= i < |items| && !Clean(items[i])
    ensures Contains(EncodeItems(items), NUL_ESCAPE)
    decreases items, 0
  {
    var i :| 0 <= i < |items| && !Clean(items[i]);
    if |items| > 1 { EncodeItemsSplits(items); }
    if i == 0 {
      NulShows(items[0]);
      if |items| > 1 { ContainsLeft(Encode(items[0]), [44, 32] + EncodeItems(items[1..])); }
    } else {
      assert items[1..][i - 1] == items[i];
      NulShowsInItems(items[1..]);
      ContainsRight([44, 32], EncodeItems(items[1..]));
      ContainsRight(Encode(items[0]), [44, 32] + EncodeItems(items[1..]));
    }
  }

  predicate CleanPair(p: Pair) {
    CleanKey(p.key) && Clean(p.value)
  }

  lemma PairEncoding(p: Pair)
    requires p.key.Writable() && Encodable(p.value)
    ensures EncodePair(p) == Quote(KeyText(p.key)) + ([58, 32] + Encode(p.value))
  {
  }

  lemma {:induction false} NulShowsInPair(p: Pair)
    requires p.key.Writable() && Encodable(p.value) && WellFormed(p.value) && !CleanPair(p)
    ensures Contains(EncodePair(p), NUL_ESCAPE)
    decreases p, 0
  {
    PairEncoding(p);
    if !Clean(p.value) {
      NulShows(p.value);
      ContainsRight([58, 32], Encode(p.value));
      ContainsRight(Quote(KeyText(p.key)), [58, 32] + Encode(p.value));
    } else {
      StringNulShows(p.key.text);
      ContainsLeft(Quote(p.key.text), [58, 32] + Encode(p.value));
    }
  }

  lemma {:induction false} NulShowsInPairs(pairs: seq<Pair>)
    requires PairsReady(pairs)
    requires exists i :: 0 <= i < |pairs| && !CleanPair(pairs[i])
    ensures Contains(EncodePairs(pairs), NUL_ESCAPE)
    decreases pairs, 0
  {
    var i :| 0 <= i < |pairs| && !CleanPair(pairs[i]);
    if |pairs| > 1 { EncodePairsSplits(pairs); }
    if i == 0 {
      NulShowsInPair(pairs[0]);
      if |pairs| > 1 { ContainsLeft(EncodePair(pairs[0]), [44, 32] + EncodePairs(pairs[1..])); }
    } else {
      assert pairs[1..][i - 1] == pairs[i];
      NulShowsInPairs(pairs[1..]);
      ContainsRight([44, 32], EncodePairs(pairs[1..]));
      ContainsRight(EncodePair(pairs[0]), [44, 32] + EncodePairs(pairs[1..]));
    }
  }

  /** Values of the same shape are encodable together. */
  lemma {:induction false} ShapeKeepsEncodable(v: Value, r: Value)
    requires ShownValue(v, r)
    ensures Encodable(v) <==> Encodable(r)
    decreases v
  {
    match v
    case List(items) =>
      forall i | 0 <= i < |items| ensures Encodable(items[i]) <==> Encodable(r.items[i]) {
        ShapeKeepsEncodable(items[i], r.items[i]);
      }
    case Tuple(items) =>
      forall i | 0 <= i < |items| ensures Encodable(items[i]) <==> Encodable(r.items[i]) {
        ShapeKeepsEncodable(items[i], r.items[i]);
      }
    case Dict(pairs) =>
      forall i | 0 <= i < |pairs| ensures Encodable(pairs[i].value) <==> Encodable(r.pairs[i].value) {
        ShapeKeepsEncodable(pairs[i].value, r.pairs[i].value);
      }
    case _ =>
  }

  /**
   The serializer is repair-then-encode: same text, same count, same error. They differ exactly on a
   value that fails twice over, with a key collision and with something that cannot be encoded, and
   then only in which of the two errors is raised.
   */
  lemma FastPathAgrees(v: Value)
    requires WellFormed(v)
    ensures Serialize(v) == RepairThenEncode(v) <==> Encodable(v) || !Collides(v)
    ensures Serialize(v).Ok? <==> RepairThenEncode(v).Ok?
    ensures Serialize(v).Ok? <==> Encodable(v) && !Collides(v)
  {
    RepairFailsOnCollision(v);
    if Repair(v).Ok? {
      RepairIsExact(v);
      ShapeKeepsEncodable(v, Repair(v).value.value);
    }
    if Encodable(v) {
      if Clean(v) {
        CleanIsFixed(v);
      } else {
        NulShows(v);
        if Repair(v).Ok? && Repair(v).value.count == 0 { UncleanIsCounted(v); }
      }
    }
  }

  /** A value that repair leaves uncounted was clean. */
  lemma {:induction false} UncleanIsCounted(v: Value)
    requires CountNuls(v) == 0
    ensures Clean(v)
    decreases v, 1
  {
    match v
    case String(s) => RepairedStringWithoutNul(s);
    case List(items) => UncountedItems(items);
    case Tuple(items) => UncountedItems(items);
    case Dict(pairs) => UncountedPairs(pairs);
    case _ =>
  }

  lemma {:induction false} UncountedItems(items: seq<Value>)
    requires CountItems(items) == 0
    ensures forall i :: 0 <= i < |items| ==> Clean(items[i])
    decreases items, 0
  {
    if items != [] {
      UncleanIsCounted(items[0]);
      UncountedItems(items[1..]);
      assert forall i :: 1 <= i < |items| ==> items[i] == items[1..][i - 1];
    }
  }

  lemma {:induction false} UncountedPair(p: Pair)
    requires CountPair(p) == 0
    ensures CleanPair(p)
    decreases p, 0
  {
    UncleanIsCounted(p.value);
    RepairedKeyWithoutNul(p.key);
  }

  lemma {:induction false} UncountedPairs(pairs: seq<Pair>)
    requires CountPairs(pairs) == 0
    ensures forall i :: 0 <= i < |pairs| ==> CleanPair(pairs[i])
    decreases pairs, 0
  {
    if pairs != [] {
      UncountedPair(pairs[0]);
      UncountedPairs(pairs[1..]);
      assert forall i :: 1 <= i < |pairs| ==> pairs[i] == pairs[1..][i - 1];
    }
  }

  /* ---- The DBAPI guard ---- */

  /** `_repair_dbapi_value` on a text bound to a JSON column. */
  function GuardJsonText(t: Str): Result<Repaired<Str>> {
    if !Contains(t, NUL_ESCAPE) then Ok(Repaired(t, 0))
    else
      match Loads(t)
      case Malformed => Ok(Repaired(RepairString(t), Nuls(t)))
      case Loaded(decoded) =>
        (match Repair(decoded)
         case Ok(r) =>
           if r.count > 0 then
             (match Dumps(r.value) case Ok(again) => Ok(Repaired(again, r.count)) case _ => TypeError)
           else Ok(Repaired(t, 0))
         case _ => Collision)
  }

  lemma MergeIsClean(s: Str)
    requires CleanString(s)
    ensures CleanString(Merge(s))
    decreases |s|
  {
    if s != [] {
      if |s| >= 2 && High(s[0]) && Low(s[1]) { MergeIsClean(s[2..]); } else { MergeIsClean(s[1..]); }
    }
  }

  predicate DistinctKeys(pairs: seq<Pair>) {
    forall i, j :: 0 <= i < j < |pairs| ==> pairs[i].key != pairs[j].key
  }

  /** A pair that survives reading: clean, well formed, and keyed by a string. */
  predicate GoodPair(p: Pair) {
    p.key.StrKey? && CleanPair(p) && WellFormed(p.value)
  }

  lemma PutIsGood(pairs: seq<Pair>, p: Pair)
    requires GoodPair(p) && DistinctKeys(pairs) && forall i :: 0 <= i < |pairs| ==> GoodPair(pairs[i])
    ensures var q := Put(pairs, p);
            && DistinctKeys(q) && (forall i :: 0 <= i < |q| ==> GoodPair(q[i]))
            && (forall i :: 0 <= i < |q| ==> q[i].key == p.key || exists j :: 0 <= j < |pairs| && pairs[j].key == q[i].key)
  {
    if pairs != [] && pairs[0].key != p.key {
      PutIsGood(pairs[1..], p);
      var q := Put(pairs[1..], p);
      forall i | 0 <= i < |q| ensures q[i].key != pairs[0].key {
        if q[i].key != p.key {
          var j :| 0 <= j < |pairs[1..]| && pairs[1..][j].key == q[i].key;
          assert pairs[j + 1].key == q[i].key;
        }
      }
      forall i | 0 <= i < |q| && q[i].key != p.key
        ensures exists j :: 0 <= j < |pairs| && pairs[j].key == q[i].key
      {
        var j :| 0 <= j < |pairs[1..]| && pairs[1..][j].key == q[i].key;
        assert pairs[j + 1].key == q[i].key;
      }
    }
  }

  lemma DictOfIsGood(pairs: seq<Pair>)
    requires forall i :: 0 <= i < |pairs| ==> GoodPair(pairs[i])
    ensures DistinctKeys(DictOf(pairs)) && forall i :: 0 <= i < |DictOf(pairs)| ==> GoodPair(DictOf(pairs)[i])
  {
    if pairs != [] {
      DictOfIsGood(pairs[..|pairs| - 1]);
      PutIsGood(DictOf(pairs[..|pairs| - 1]), pairs[|pairs| - 1]);
    }
  }

  /** Reading back a clean value gives a clean, well-formed value. */
  lemma {:induction false} ReadBackIsClean(v: Value)
    requires Encodable(v) && WellFormed(v) && Clean(v)
    ensures Clean(ReadBack(v)) && WellFormed(ReadBack(v))
    decreases v, 1
  {
    match v
    case String(s) => MergeIsClean(s);
    case List(items) => ReadBackItemsAreClean(items);
    case Tuple(items) => ReadBackItemsAreClean(items);
    case Dict(pairs) =>
      ReadBackPairsAreGood(pairs);
      DictOfIsGood(ReadBackPairs(pairs));
      assert forall i :: 0 <= i < |DictOf(ReadBackPairs(pairs))| ==> GoodPair(DictOf(ReadBackPairs(pairs))[i]);
    case _ =>
  }

  lemma {:induction false} ReadBackItemsAreClean(items: seq<Value>)
    requires forall i :: 0 <= i < |items| ==> Encodable(items[i]) && WellFormed(items[i]) && Clean(items[i])
    ensures forall i :: 0 <= i < |ReadBackItems(items)| ==>
              Clean(ReadBackItems(items)[i]) && WellFormed(ReadBackItems(items)[i])
    decreases items, 0
  {
    if items != [] {
      ReadBackIsClean(items[0]);
      ReadBackItemsAreClean(items[1..]);
    }
  }

  lemma {:induction false} ReadBackPairIsGood(p: Pair)
    requires p.key.Writable() && Encodable(p.value) && WellFormed(p.value) && CleanPair(p)
    requires p.key.ScalarKey? ==> Printable(p.key.scalar)
    ensures GoodPair(ReadBackPair(p))
    decreases p, 0
  {
    ReadBackIsClean(p.value);
    MergeIsClean(KeyText(p.key));
  }

  lemma {:induction false} ReadBackPairsAreGood(pairs: seq<Pair>)
    requires PairsReady(pairs)
    requires forall i :: 0 <= i < |pairs| ==>
               CleanPair(pairs[i]) && (pairs[i].key.ScalarKey? ==> Printable(pairs[i].key.scalar))
    ensures forall i :: 0 <= i < |ReadBackPairs(pairs)| ==> GoodPair(ReadBackPairs(pairs)[i])
    decreases pairs, 0
  {
    if pairs != [] {
      ReadBackPairIsGood(pairs[0]);
      ReadBackPairsAreGood(pairs[1..]);
    }
  }

  /** On the encoding of a clean value the guard changes nothing and counts nothing. */
  lemma GuardLeavesCleanText(v: Value)
    requires Encodable(v) && WellFormed(v) && Clean(v)
    ensures GuardJsonText(Encode(v)) == Ok(Repaired(Encode(v), 0))
  {
    LoadsUndoesDumps(v);
    ReadBackIsClean(v);
    CleanIsFixed(ReadBack(v));
  }

  /** Main result: whatever the serializer produced, the guard behind it is a no-op with count zero. */
  lemma NothingIsRepairedTwice(v: Value)
    requires WellFormed(v) && Serialize(v).Ok?
    ensures GuardJsonText(Serialize(v).value.value) == Ok(Repaired(Serialize(v).value.value, 0))
  {
    FastPathAgrees(v);
    RepairIsExact(v);
    RepairKeepsWellFormed(v);
    ShapeKeepsEncodable(v, Repair(v).value.value);
    GuardLeavesCleanText(Repair(v).value.value);
  }
}
