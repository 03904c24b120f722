/**
 What the DBAPI guard does to any text bound to a JSON column, not only to what the serializer wrote:
 texts that are not JSON are repaired as text, JSON documents are repaired as documents.
 */
module NulGuard {
  import opened JsonText
  import opened NulRepair

  /* ---- What the decoder can return ---- */

  /** A value the decoder returns can be encoded again. */
  predicate Readable(v: Value) {
    Encodable(v) && WellFormed(v)
  }

  predicate ReadablePair(p: Pair) {
    p.key.StrKey? && Readable(p.value)
  }

  lemma PutIsReadable(pairs: seq<Pair>, p: Pair)
    requires ReadablePair(p) && DistinctKeys(pairs) && forall i :: 0 <= i < |pairs| ==> ReadablePair(pairs[i])
    ensures var q := Put(pairs, p);
            && DistinctKeys(q) && (forall i :: 0 <= i < |q| ==> ReadablePair(q[i]))
            && (forall i :: 0 <= i < |q| ==> q[i].key == p.key || exists j :: 0 <= j < |pairs| && pairs[j].key == q[i].key)
  {
    if pairs != [] && pairs[0].key != p.key {
      PutIsReadable(pairs[1..], p);
      var q := Put(pairs[1..], p);
      forall i | 0 <= i < |q| ensures q[i].key != pairs[0].key {
        if q[i].key != p.key {
          var j :| 0 <= j < |pairs[1..]| && pairs[1..][j].key == q[i].key;
          assert pairs[j + 1].key == q[i].key;
        }
      }
      forall i | 0 <= i < |q| && q[i].key != p.key
        ensures exists j :: 0 <= j < |pairs| && pairs[j].key == q[i].key
      {
        var j :| 0 <= j < |pairs[1..]| && pairs[1..][j].key == q[i].key;
        assert pairs[j + 1].key == q[i].key;
      }
    }
  }

  lemma DictOfIsReadable(pairs: seq<Pair>)
    requires forall i :: 0 <= i < |pairs| ==> ReadablePair(pairs[i])
    ensures Readable(Dict(DictOf(pairs)))
    ensures DistinctKeys(DictOf(pairs)) && forall i :: 0 <= i < |DictOf(pairs)| ==> ReadablePair(DictOf(pairs)[i])
  {
    if pairs != [] {
      DictOfIsReadable(pairs[..|pairs| - 1]);
      PutIsReadable(DictOf(pairs[..|pairs| - 1]), pairs[|pairs| - 1]);
    }
  }

  lemma {:induction false} ReadValueIsReadable(t: Str)
    requires ReadValue(t).Done?
    ensures Readable(ReadValue(t).value)
    decreases |t|, 3
  {
    if t[0] == 91 {
      var inner := SkipSpace(t[1..]);
      if !(inner != [] && inner[0] == 93) { ReadItemsAreReadable(inner); }
    } else if t[0] == 123 {
      var inner := SkipSpace(t[1..]);
      if inner != [] && inner[0] == 125 {
        DictOfIsReadable([]);
      } else {
        ReadPairsAreReadable(inner);
        DictOfIsReadable(ReadPairs(inner).value);
      }
    }
  }

  lemma {:induction false} ReadItemsAreReadable(t: Str)
    requires ReadItems(t).Done?
    ensures forall i :: 0 <= i < |ReadItems(t).value| ==> Readable(ReadItems(t).value[i])
    decreases |t|, 4
  {
    ReadValueIsReadable(t);
    var after := SkipSpace(ReadValue(t).rest);
    if after[0] == 44 { ReadItemsAreReadable(SkipSpace(after[1..])); }
  }

  lemma {:induction false} ReadPairIsReadable(t: Str)
    requires ReadPair(t).Done?
    ensures ReadablePair(ReadPair(t).value)
    decreases |t|, 4
  {
    var after := SkipSpace(ReadChars(t[1..]).rest);
    ReadValueIsReadable(SkipSpace(after[1..]));
  }

  lemma {:induction false} ReadPairsAreReadable(t: Str)
    requires ReadPairs(t).Done?
    ensures forall i :: 0 <= i < |ReadPairs(t).value| ==> ReadablePair(ReadPairs(t).value[i])
    decreases |t|, 5
  {
    ReadPairIsReadable(t);
    var after := SkipSpace(ReadPair(t).rest);
    if after[0] == 44 { ReadPairsAreReadable(SkipSpace(after[1..])); }
  }

  /** Whatever text the decoder accepts, it returns something the encoder accepts. */
  lemma LoadedIsReadable(t: Str)
    requires Loads(t).Loaded?
    ensures Readable(Loads(t).value)
  {
    ReadValueIsReadable(SkipSpace(t));
  }

  /* ---- The guard ---- */

  /** The escape, backslash, u and four zeros, stands somewhere in the text. */
  ghost predicate Escaped(t: Str) {
    exists a: Str, b: Str :: t == a + [92, 117, 48, 48, 48, 48] + b
  }

  lemma EscapedExactly(t: Str)
    ensures Escaped(t) <==> Contains(t, NUL_ESCAPE)
  {
    if a: Str, b: Str :| t == a + [92, 117, 48, 48, 48, 48] + b {
      assert t[|a|..|a| + 6] == NUL_ESCAPE;
      assert At(t, NUL_ESCAPE, |a|);
    }
    if i :| 0 <= i <= |t| && At(t, NUL_ESCAPE, i) {
      assert t == t[..i] + [92, 117, 48, 48, 48, 48] + t[i + 6..];
    }
  }

  /** A text without the escape passes as it is, and so does a document without U+0000. */
  lemma GuardPasses(t: Str)
    requires !Escaped(t) || (Loads(t).Loaded? && Clean(Loads(t).value))
    ensures GuardJsonText(t) == Ok(Repaired(t, 0))
  {
    EscapedExactly(t);
    if Loads(t).Loaded? {
      LoadedIsReadable(t);
      if Clean(Loads(t).value) { CleanIsFixed(Loads(t).value); }
    }
  }

  /** A text that is no JSON but has the escape is repaired as text: U+0000 is shown wherever it stands. */
  lemma GuardRepairsText(t: Str)
    requires Escaped(t) && Loads(t).Malformed?
    ensures GuardJsonText(t).Ok? && GuardJsonText(t).value.count == multiset(t)[0]
    ensures Shown(t, GuardJsonText(t).value.value)
  {
    EscapedExactly(t);
    ShownExactly(t, RepairString(t));
    NulsAreCounted(t);
  }

  /**
   A document with U+0000 in it is refused if two of its keys would collide, and otherwise replaced by a
   document that reads as the repaired one: each U+0000 shown, none left, and all of them counted.
   */
  lemma GuardRepairsDocument(t: Str)
    requires Escaped(t) && Loads(t).Loaded? && !Clean(Loads(t).value)
    ensures GuardJsonText(t).Ok? <==> !Collides(Loads(t).value)
    ensures GuardJsonText(t).Ok? ==>
              && GuardJsonText(t).value.count == multiset(Flat(Loads(t).value))[0] > 0
              && exists r :: ShownValue(Loads(t).value, r) && Encodable(r)
                             && Loads(GuardJsonText(t).value.value) == Loaded(ReadBack(r)) && Clean(ReadBack(r))
  {
    EscapedExactly(t);
    var v := Loads(t).value;
    LoadedIsReadable(t);
    RepairFailsOnCollision(v);
    if Repair(v).Ok? {
      var r := Repair(v).value.value;
      RepairIsExact(v);
      RepairCountsAll(v);
      RepairKeepsWellFormed(v);
      ShapeKeepsEncodable(v, r);
      if Repair(v).value.count == 0 { UncleanIsCounted(v); }
      LoadsUndoesDumps(r);
      ReadBackIsClean(r);
      assert ShownValue(v, r) && Encodable(r);
    }
  }

  /** So a raw U+0000 gets past the guard exactly in a text that has one and nowhere the escape. */
  lemma RawNulPassesExactly(t: Str)
    requires Loads(t).Malformed?
    ensures GuardJsonText(t).Ok?
    ensures !CleanString(GuardJsonText(t).value.value)
            <==> !CleanString(t) && !Escaped(t)
  {
    EscapedExactly(t);
    RepairedStringIsClean(t);
    RepairedStringWithoutNul(t);
  }
}
