/**
 The byte stream a build identity is the digest of: for every source file, in order, its path, mode,
 length and bytes, each closed by a NUL. Paths are Unicode text without NUL.
 */
module BuildIdentity {
  import opened Wrappers

  type Byte = b: int | 0 <= b < 256
  type Bytes = seq<Byte>

  /** A Unicode scalar value other than NUL. */
  type Scalar = c: int | 0 < c < 0xD800 || 0xE000 <= c < 0x11_0000 witness 1
  type Path = seq<Scalar>
  type Mode = m: int | 0 <= m <= 511

  datatype File = File(path: Path, mode: Mode, payload: Bytes)

  /** The files below the root, by path. */
  datatype Node = Node(mode: Mode, payload: Bytes)
  type Tree = map<Path, Node>

  /* ---- Framing ---- */

  /** UTF-8. */
  function EncodeScalar(c: Scalar): Bytes {
    if c < 0x80 then [c]
    else if c < 0x800 then [0xC0 + c / 64, 0x80 + c % 64]
    else if c < 0x1_0000 then [0xE0 + c / 4096, 0x80 + c / 64 % 64, 0x80 + c % 64]
    else [0xF0 + c / 26_2144, 0x80 + c / 4096 % 64, 0x80 + c / 64 % 64, 0x80 + c % 64]
  }

  function EncodePath(p: Path): Bytes {
    if p == [] then [] else EncodeScalar(p[0]) + EncodePath(p[1..])
  }

  /** The digits of a number in base ten or eight, without leading zeros. */
  function Digits(n: nat, base: nat): Bytes
    requires 2 <= base <= 10
  {
    if n < base then [48 + n] else Digits(n / base, base) + [48 + n % base]
  }

  /** `{mode:04o}`. */
  function OctalMode(m: Mode): Bytes {
    [48, 48 + m / 64, 48 + m / 8 % 8, 48 + m % 8]
  }

  /** `.padStart(4, '0')`. */
  function PadStart(s: Bytes): Bytes
    decreases 4 - |s|
  {
    if |s| < 4 then PadStart([48] + s) else s
  }

  lemma {:induction false} PadStartPads(s: Bytes)
    requires |s| <= 4
    ensures PadStart(s) == seq(4 - |s|, i => 48) + s
    decreases 4 - |s|
  {
    if |s| < 4 {
      PadStartPads([48] + s);
      assert seq(3 - |s|, i => 48) + ([48] + s) == seq(4 - |s|, i => 48) + s;
    }
  }

  lemma ModesAgree(m: Mode)
    ensures PadStart(Digits(m, 8)) == OctalMode(m)
  {
    if m < 8 {
      assert Digits(m, 8) == [48 + m];
    } else if m < 64 {
      assert Digits(m / 8, 8) == [48 + m / 8];
      assert Digits(m, 8) == [48 + m / 8, 48 + m % 8];
    } else {
      assert Digits(m / 8 / 8, 8) == [48 + m / 8 / 8];
      assert Digits(m / 8, 8) == [48 + m / 64, 48 + m / 8 % 8];
      assert Digits(m, 8) == [48 + m / 64, 48 + m / 8 % 8, 48 + m % 8];
    }
    PadStartPads(Digits(m, 8));
  }

  function Frame(f: File): Bytes {
    EncodePath(f.path) + [0] + OctalMode(f.mode) + [0] + Digits(|f.payload|, 10) + [0] + f.payload + [0]
  }

  function Stream(files: seq<File>): Bytes {
    if files == [] then [] else Frame(files[0]) + Stream(files[1..])
  }

  lemma {:induction false} StreamAppend(a: seq<File>, b: seq<File>)
    ensures Stream(a + b) == Stream(a) + Stream(b)
  {
    if a == [] {
      assert a + b == b;
    } else {
      assert (a + b)[1..] == a[1..] + b;
      StreamAppend(a[1..], b);
    }
  }

  function Listed(tree: Tree, paths: seq<Path>): (files: seq<File>)
    requires forall p :: p in paths ==> p in tree
    ensures |files| == |paths|
    ensures forall i :: 0 <= i < |paths| ==>
      files[i] == File(paths[i], tree[paths[i]].mode, tree[paths[i]].payload)
  {
    if paths == [] then []
    else [File(paths[0], tree[paths[0]].mode, tree[paths[0]].payload)] + Listed(tree, paths[1..])
  }

  lemma ListedAppend(tree: Tree, paths: seq<Path>, p: Path)
    requires forall q :: q in paths + [p] ==> q in tree
    ensures forall q :: q in paths ==> q in tree
    ensures p in tree
    ensures Listed(tree, paths + [p]) == Listed(tree, paths) + [File(p, tree[p].mode, tree[p].payload)]
  {
    forall q | q in paths ensures q in tree { assert q in paths + [p]; }
    assert p in paths + [p];
  }

  /* ---- Reading it back ---- */

  /** The bytes before the first NUL; None if there is none. */
  function Field(s: Bytes): (r: Option<nat>)
    ensures r.Some? ==> r.value < |s| && s[r.value] == 0
  {
    if s == [] then None
    else if s[0] == 0 then Some(0)
    else match Field(s[1..]) case None => None case Some(i) => Some(i + 1)
  }

  /** How many bytes a lead byte announces. */
  function Width(lead: Byte): (n: nat)
    ensures 1 <= n <= 4
  {
    if lead < 0x80 then 1 else if lead < 0xE0 then 2 else if lead < 0xF0 then 3 else 4
  }

  function ScalarAt(s: Bytes, n: nat): int
    requires 1 <= n <= 4 && n <= |s|
  {
    if n == 1 then s[0]
    else
      var low := s[n - 1] as int - 0x80;
      if n == 2 then (s[0] as int - 0xC0) * 64 + low
      else
        var next := s[n - 2] as int - 0x80;
        if n == 3 then (s[0] as int - 0xE0) * 4096 + next * 64 + low
        else (s[0] as int - 0xF0) * 26_2144 + (s[1] as int - 0x80) * 4096 + next * 64 + low
  }

  function DecodePath(s: Bytes): Option<Path> {
    if s == [] then Some([])
    else
      var n := Width(s[0]);
      if |s| < n then None
      else
        var c := ScalarAt(s, n);
        if !(0 < c < 0xD800 || 0xE000 <= c < 0x11_0000) then None
        else match DecodePath(s[n..]) case None => None case Some(rest) => Some([c] + rest)
  }

  function Number(s: Bytes, base: nat): int {
    if s == [] then 0 else Number(s[..|s| - 1], base) * base + (s[|s| - 1] as int - 48)
  }

  /** Mode, bytes and what follows them. */
  function ReadBody(s: Bytes): (r: Option<(Mode, Bytes, Bytes)>)
    ensures r.Some? ==> |r.value.2| < |s|
  {
    if |s| < 5 then None
    else
      var t := s[5..];
      match Field(t)
      case None => None
      case Some(j) =>
        var u := t[j + 1..];
        var mode, length := Number(s[..4], 8), Number(t[..j], 10);
        if !(0 <= length < |u|) || !(0 <= mode <= 511) then None
        else Some((mode, u[..length], u[length + 1..]))
  }

  /** One file and what follows it. */
  function ReadFrame(s: Bytes): (r: Option<(File, Bytes)>)
    ensures r.Some? ==> |r.value.1| < |s|
  {
    match Field(s)
    case None => None
    case Some(i) =>
      match ReadBody(s[i + 1..])
      case None => None
      case Some((mode, payload, rest)) =>
        match DecodePath(s[..i])
        case None => None
        case Some(path) => Some((File(path, mode, payload), rest))
  }

  function Decode(s: Bytes): Option<seq<File>>
    decreases |s|
  {
    if s == [] then Some([])
    else
      match ReadFrame(s)
      case None => None
      case Some((file, rest)) =>
        (match Decode(rest) case None => None case Some(files) => Some([file] + files))
  }

  lemma FieldEnds(x: Bytes, rest: Bytes)
    requires 0 !in x
    ensures Field(x + [0] + rest) == Some(|x|)
  {
    var s := x + [0] + rest;
    if x == [] {
      assert s[0] == 0;
    } else {
      assert s[1..] == x[1..] + [0] + rest;
      FieldEnds(x[1..], rest);
    }
  }

  lemma ScalarHasNoNul(c: Scalar)
    ensures 0 !in EncodeScalar(c)
  {
  }

  lemma {:induction false} PathHasNoNul(p: Path)
    ensures 0 !in EncodePath(p)
  {
    if p != [] {
      ScalarHasNoNul(p[0]);
      PathHasNoNul(p[1..]);
    }
  }

  lemma {:induction false} DigitsHaveNoNul(n: nat, base: nat)
    requires 2 <= base <= 10
    ensures 0 !in Digits(n, base)
  {
    if n >= base { DigitsHaveNoNul(n / base, base); }
  }

  lemma QuotientAndRest(n: nat, base: nat)
    requires base > 0
    ensures n / base * base + n % base == n
  {
  }

  lemma LastDigit(d: Bytes, last: Byte, base: nat)
    ensures Number(d + [last], base) == Number(d, base) * base + (last as int - 48)
  {
    assert (d + [last])[..|d|] == d;
  }

  lemma {:induction false} NumberOfDigits(n: nat, base: nat)
    requires 2 <= base <= 10
    ensures Number(Digits(n, base), base) == n
  {
    if n >= base {
      var d := Digits(n / base, base);
      NumberOfDigits(n / base, base);
      LastDigit(d, 48 + n % base, base);
      QuotientAndRest(n, base);
    }
  }

  lemma NumberOfMode(m: Mode)
    ensures Number(OctalMode(m), 8) == m
  {
    var s := OctalMode(m);
    assert s[..3][..2] == s[..2] && s[..2][..1] == s[..1] && s[..1][..0] == [];
    assert Number(s[..1], 8) == 0;
    assert Number(s[..2], 8) == m / 64;
    assert Number(s[..3], 8) == m / 8;
  }

  lemma SplitThree(c: nat)
    ensures c / 4096 * 4096 + c / 64 % 64 * 64 + c % 64 == c
  {
    assert c / 4096 == c / 64 / 64;
  }

  lemma SplitFour(c: nat)
    ensures c / 26_2144 * 26_2144 + c / 4096 % 64 * 4096 + c / 64 % 64 * 64 + c % 64 == c
  {
    SplitThree(c);
    assert c / 26_2144 == c / 4096 / 64;
  }

  lemma ScalarRoundTrip(c: Scalar)
    ensures Width(EncodeScalar(c)[0]) == |EncodeScalar(c)|
    ensures ScalarAt(EncodeScalar(c), |EncodeScalar(c)|) == c
  {
    if 0x800 <= c < 0x1_0000 {
      SplitThree(c);
    } else if c >= 0x1_0000 {
      SplitFour(c);
    }
  }

  lemma ScalarDecodes(c: Scalar, rest: Bytes)
    ensures DecodePath(EncodeScalar(c) + rest)
            == match DecodePath(rest) case None => None case Some(p) => Some([c] + p)
  {
    var s := EncodeScalar(c) + rest;
    ScalarRoundTrip(c);
    assert s[|EncodeScalar(c)|..] == rest;
  }

  lemma {:induction false} PathRoundTrip(p: Path)
    ensures DecodePath(EncodePath(p)) == Some(p)
  {
    if p != [] {
      PathRoundTrip(p[1..]);
      ScalarDecodes(p[0], EncodePath(p[1..]));
      assert [p[0]] + p[1..] == p;
    }
  }

  lemma HeadCut(x: Bytes, rest: Bytes)
    ensures (x + [0] + rest)[..|x|] == x && (x + [0] + rest)[|x| + 1..] == rest
  {
  }

  /** The four fields of a frame, one after the other. */
  lemma FrameParts(f: File, rest: Bytes)
    ensures Frame(f) + rest
            == EncodePath(f.path) + [0] + (OctalMode(f.mode) + [0] + (Digits(|f.payload|, 10) + [0] + (f.payload + [0] + rest)))
  {
  }

  lemma PathFieldReads(p: Path, rest: Bytes)
    ensures var s := EncodePath(p) + [0] + rest;
            && Field(s) == Some(|EncodePath(p)|)
            && DecodePath(s[..|EncodePath(p)|]) == Some(p) && s[|EncodePath(p)| + 1..] == rest
  {
    PathHasNoNul(p);
    FieldEnds(EncodePath(p), rest);
    HeadCut(EncodePath(p), rest);
    PathRoundTrip(p);
  }

  lemma LengthFieldReads(n: nat, rest: Bytes)
    ensures var d := Digits(n, 10);
            var s := d + [0] + rest;
            Field(s) == Some(|d|) && Number(s[..|d|], 10) == n && s[|d| + 1..] == rest
  {
    DigitsHaveNoNul(n, 10);
    FieldEnds(Digits(n, 10), rest);
    HeadCut(Digits(n, 10), rest);
    NumberOfDigits(n, 10);
  }

  lemma ReadBodyStep(s: Bytes, mode: Mode, t: Bytes, j: nat, payload: Bytes, u: Bytes, rest: Bytes)
    requires |s| >= 5 && Number(s[..4], 8) == mode && s[5..] == t
    requires Field(t) == Some(j) && Number(t[..j], 10) == |payload| && t[j + 1..] == u
    requires |payload| < |u| && u[..|payload|] == payload && u[|payload| + 1..] == rest
    ensures ReadBody(s) == Some((mode, payload, rest))
  {
  }

  lemma BodyRoundTrip(mode: Mode, payload: Bytes, rest: Bytes)
    ensures ReadBody(OctalMode(mode) + [0] + (Digits(|payload|, 10) + [0] + (payload + [0] + rest)))
            == Some((mode, payload, rest))
  {
    var u := payload + [0] + rest;
    var t := Digits(|payload|, 10) + [0] + u;
    var s := OctalMode(mode) + [0] + t;
    HeadCut(OctalMode(mode), t);
    NumberOfMode(mode);
    LengthFieldReads(|payload|, u);
    HeadCut(payload, rest);
    ReadBodyStep(s, mode, t, |Digits(|payload|, 10)|, payload, u, rest);
  }

  lemma FrameRoundTrip(f: File, rest: Bytes)
    ensures ReadFrame(Frame(f) + rest) == Some((f, rest))
  {
    FrameParts(f, rest);
    BodyRoundTrip(f.mode, f.payload, rest);
    PathFieldReads(f.path, OctalMode(f.mode) + [0] + (Digits(|f.payload|, 10) + [0] + (f.payload + [0] + rest)));
  }

  /** Decoding undoes the stream, whatever bytes the files hold. */
  lemma {:induction false} DecodeUndoesStream(files: seq<File>)
    ensures Decode(Stream(files)) == Some(files)
  {
    if files != [] {
      FrameRoundTrip(files[0], Stream(files[1..]));
      DecodeUndoesStream(files[1..]);
      assert [files[0]] + files[1..] == files;
    }
  }

  /** Equal streams are of equal files: nothing moves between path, mode, length and bytes. */
  lemma StreamIsInjective(a: seq<File>, b: seq<File>)
    ensures Stream(a) == Stream(b) <==> a == b
  {
    DecodeUndoesStream(a);
    DecodeUndoesStream(b);
  }

  /* ---- Order ---- */

  /** Python compares code points, JavaScript UTF-16 code units. */
  datatype Order = ByCodePoint | ByCodeUnit

  function Units(c: Scalar): seq<nat> {
    if c < 0x1_0000 then [c] else [0xD800 + (c - 0x1_0000) / 1024, 0xDC00 + (c - 0x1_0000) % 1024]
  }

  function SortKey(order: Order, p: Path): seq<nat> {
    if p == [] then []
    else (if order.ByCodePoint? then [p[0]] else Units(p[0])) + SortKey(order, p[1..])
  }

  predicate LexLeq(a: seq<nat>, b: seq<nat>) {
    a == [] || (b != [] && (a[0] < b[0] || (a[0] == b[0] && LexLeq(a[1..], b[1..]))))
  }

  predicate Leq(order: Order, p: Path, q: Path) {
    LexLeq(SortKey(order, p), SortKey(order, q))
  }

  predicate Ascending(order: Order, paths: seq<Path>) {
    forall i, j :: 0 <= i < j < |paths| ==> Leq(order, paths[i], paths[j])
  }

  lemma {:induction false} LexTotal(a: seq<nat>, b: seq<nat>)
    ensures LexLeq(a, b) || LexLeq(b, a)
    ensures LexLeq(a, b) && LexLeq(b, a) ==> a == b
    ensures LexLeq(a, a)
  {
    if a != [] {
      LexTotal(a[1..], a[1..]);
      if b != [] {
        LexTotal(a[1..], b[1..]);
        assert a == [a[0]] + a[1..] && b == [b[0]] + b[1..];
      }
    }
  }

  lemma {:induction false} LexTransitive(a: seq<nat>, b: seq<nat>, c: seq<nat>)
    requires LexLeq(a, b) && LexLeq(b, c)
    ensures LexLeq(a, c)
  {
    if a != [] && a[0] == b[0] && b[0] == c[0] { LexTransitive(a[1..], b[1..], c[1..]); }
  }

  lemma {:induction false} LexPrefix(x: seq<nat>, a: seq<nat>, b: seq<nat>)
    ensures LexLeq(x + a, x + b) == LexLeq(a, b)
  {
    if x == [] {
      assert x + a == a && x + b == b;
    } else {
      assert (x + a)[1..] == x[1..] + a && (x + b)[1..] == x[1..] + b;
      LexPrefix(x[1..], a, b);
    }
  }

  /** Where the two orders disagree: the first difference is between a character outside the basic plane and one above the surrogates. */
  predicate Crossed(p: Path, q: Path) {
    if p == [] || q == [] then false
    else if p[0] == q[0] then Crossed(p[1..], q[1..])
    else (p[0] >= 0x1_0000 && 0xE000 <= q[0] < 0x1_0000) || (q[0] >= 0x1_0000 && 0xE000 <= p[0] < 0x1_0000)
  }

  ghost predicate Uncrossed(paths: seq<Path>) {
    forall p, q :: p in paths && q in paths ==> !Crossed(p, q)
  }

  lemma {:induction false} OrdersAgreeUnlessCrossed(p: Path, q: Path)
    requires p != q
    ensures Leq(ByCodePoint, p, q) == Leq(ByCodeUnit, p, q) <==> !Crossed(p, q)
  {
    if p != [] && q != [] {
      if p[0] == q[0] {
        assert p == [p[0]] + p[1..] && q == [q[0]] + q[1..];
        LexPrefix([p[0]], SortKey(ByCodePoint, p[1..]), SortKey(ByCodePoint, q[1..]));
        LexPrefix(Units(p[0]), SortKey(ByCodeUnit, p[1..]), SortKey(ByCodeUnit, q[1..]));
        OrdersAgreeUnlessCrossed(p[1..], q[1..]);
      } else {
        FirstUnitsDecide(p[0], q[0], SortKey(ByCodeUnit, p[1..]), SortKey(ByCodeUnit, q[1..]));
      }
    }
  }

  lemma FirstUnitsDecide(c: Scalar, d: Scalar, a: seq<nat>, b: seq<nat>)
    requires c != d
    ensures LexLeq(Units(c) + a, Units(d) + b) == (c < d)
            <==> !((c >= 0x1_0000 && 0xE000 <= d < 0x1_0000) || (d >= 0x1_0000 && 0xE000 <= c < 0x1_0000))
  {
    var x, y := Units(c) + a, Units(d) + b;
    if c >= 0x1_0000 && d >= 0x1_0000 {
      assert x[1..][0] == Units(c)[1] && y[1..][0] == Units(d)[1];
    }
  }

  lemma {:induction false} KeyIsInjective(order: Order, p: Path, q: Path)
    requires SortKey(order, p) == SortKey(order, q)
    ensures p == q
  {
    if p != [] && q != [] {
      var a, b := SortKey(order, p[1..]), SortKey(order, q[1..]);
      var x, y := SortKey(order, p), SortKey(order, q);
      if order.ByCodePoint? {
        assert x[1..] == a && y[1..] == b && x[0] == p[0] && y[0] == q[0];
      } else {
        assert x[0] == Units(p[0])[0] && y[0] == Units(q[0])[0];
        if p[0] >= 0x1_0000 { assert x[1] == Units(p[0])[1] && y[1] == Units(q[0])[1]; }
        assert x[|Units(p[0])|..] == a && y[|Units(q[0])|..] == b;
      }
      KeyIsInjective(order, p[1..], q[1..]);
      assert p == [p[0]] + p[1..] && q == [q[0]] + q[1..];
    }
  }

  function Place(order: Order, p: Path, sorted: seq<Path>): seq<Path> {
    if sorted == [] then [p]
    else if Leq(order, p, sorted[0]) then [p] + sorted
    else [sorted[0]] + Place(order, p, sorted[1..])
  }

  function Sort(order: Order, paths: seq<Path>): seq<Path> {
    if paths == [] then [] else Place(order, paths[0], Sort(order, paths[1..]))
  }

  lemma {:induction false} PlaceKeepsPaths(order: Order, p: Path, sorted: seq<Path>)
    ensures multiset(Place(order, p, sorted)) == multiset([p] + sorted)
  {
    if sorted != [] && !Leq(order, p, sorted[0]) {
      PlaceKeepsPaths(order, p, sorted[1..]);
      assert sorted == [sorted[0]] + sorted[1..];
    }
  }

  lemma HeadIsLeast(order: Order, a: seq<Path>, x: Path)
    requires Ascending(order, a) && x in a
    ensures Leq(order, a[0], x)
  {
    LexTotal(SortKey(order, a[0]), SortKey(order, a[0]));
    var i :| 0 <= i < |a| && a[i] == x;
  }

  lemma PlacedAreOldOrNew(order: Order, p: Path, sorted: seq<Path>, x: Path)
    requires x in Place(order, p, sorted)
    ensures x == p || x in sorted
  {
    PlaceKeepsPaths(order, p, sorted);
    assert x in multiset(Place(order, p, sorted));
    assert x in [p] + sorted;
  }

  /** A head that is least goes in front. */
  lemma AscendingCons(order: Order, head: Path, rest: seq<Path>)
    requires Ascending(order, rest) && forall x :: x in rest ==> Leq(order, head, x)
    ensures Ascending(order, [head] + rest)
  {
  }

  lemma {:induction false} PlaceKeepsOrder(order: Order, p: Path, sorted: seq<Path>)
    requires Ascending(order, sorted)
    ensures Ascending(order, Place(order, p, sorted))
  {
    if sorted == [] {
      return;
    }
    var head := sorted[0];
    LexTotal(SortKey(order, p), SortKey(order, head));
    if Leq(order, p, head) {
      forall x | x in sorted ensures Leq(order, p, x) {
        HeadIsLeast(order, sorted, x);
        LexTransitive(SortKey(order, p), SortKey(order, head), SortKey(order, x));
      }
      AscendingCons(order, p, sorted);
    } else {
      PlaceKeepsOrder(order, p, sorted[1..]);
      forall x | x in Place(order, p, sorted[1..]) ensures Leq(order, head, x) {
        PlacedAreOldOrNew(order, p, sorted[1..], x);
        if x != p { HeadIsLeast(order, sorted, x); }
      }
      AscendingCons(order, head, Place(order, p, sorted[1..]));
    }
  }

  lemma {:induction false} SortSorts(order: Order, paths: seq<Path>)
    ensures Ascending(order, Sort(order, paths)) && multiset(Sort(order, paths)) == multiset(paths)
  {
    if paths != [] {
      SortSorts(order, paths[1..]);
      PlaceKeepsOrder(order, paths[0], Sort(order, paths[1..]));
      PlaceKeepsPaths(order, paths[0], Sort(order, paths[1..]));
      assert paths == [paths[0]] + paths[1..];
    }
  }

  lemma TailIsRest(a: seq<Path>)
    requires a != []
    ensures multiset(a[1..]) == multiset(a) - multiset{a[0]}
  {
    assert a == [a[0]] + a[1..];
  }

  lemma SameHead(order: Order, a: seq<Path>, b: seq<Path>)
    requires a != [] && b != [] && Ascending(order, a) && Ascending(order, b) && multiset(a) == multiset(b)
    ensures a[0] == b[0]
  {
    assert a[0] in multiset(b) && b[0] in multiset(a);
    HeadIsLeast(order, a, b[0]);
    HeadIsLeast(order, b, a[0]);
    LexTotal(SortKey(order, a[0]), SortKey(order, b[0]));
    KeyIsInjective(order, a[0], b[0]);
  }

  lemma TailAscends(order: Order, a: seq<Path>)
    requires a != [] && Ascending(order, a)
    ensures Ascending(order, a[1..])
  {
  }

  /** An ascending list is determined by what is in it. */
  lemma {:induction false} AscendingIsUnique(order: Order, a: seq<Path>, b: seq<Path>)
    requires Ascending(order, a) && Ascending(order, b) && multiset(a) == multiset(b)
    ensures a == b
    decreases |a|
  {
    assert |multiset(a)| == |a| && |multiset(b)| == |b|;
    if a != [] {
      SameHead(order, a, b);
      TailIsRest(a);
      TailIsRest(b);
      TailAscends(order, a);
      TailAscends(order, b);
      AscendingIsUnique(order, a[1..], b[1..]);
      assert a == [a[0]] + a[1..] && b == [b[0]] + b[1..];
    }
  }

  /** The order in which the file system lists the files does not matter. */
  lemma ListingOrderIsIrrelevant(order: Order, a: seq<Path>, b: seq<Path>)
    requires multiset(a) == multiset(b)
    ensures Sort(order, a) == Sort(order, b)
  {
    SortSorts(order, a);
    SortSorts(order, b);
    AscendingIsUnique(order, Sort(order, a), Sort(order, b));
  }

  lemma SortedIsListed(order: Order, tree: Tree, paths: seq<Path>)
    requires forall p :: p in paths ==> p in tree
    ensures forall p :: p in Sort(order, paths) <==> p in paths
    ensures forall p :: p in Sort(order, paths) ==> p in tree
  {
    SortSorts(order, paths);
    forall p ensures p in Sort(order, paths) <==> p in paths {
      assert p in multiset(Sort(order, paths)) <==> p in Sort(order, paths);
      assert p in multiset(paths) <==> p in paths;
    }
  }

  /* ---- The two programs ---- */

  /** The bytes the digest is taken of; None where there is no file to take it of. */
  function Identity(order: Order, tree: Tree, paths: seq<Path>): Option<Bytes>
    requires forall p :: p in paths ==> p in tree
  {
    if paths == [] then None
    else
      SortedIsListed(order, tree, paths);
      Some(Stream(Listed(tree, Sort(order, paths))))
  }

  lemma PrefixListed(tree: Tree, sorted: seq<Path>, i: nat)
    requires i < |sorted| && forall p :: p in sorted ==> p in tree
    ensures sorted[i] in tree && forall p :: p in sorted[..i + 1] ==> p in tree
    ensures forall p :: p in sorted[..i] ==> p in tree
    ensures Stream(Listed(tree, sorted[..i + 1]))
            == Stream(Listed(tree, sorted[..i]))
               + Frame(File(sorted[i], tree[sorted[i]].mode, tree[sorted[i]].payload))
  {
    assert sorted[i] in sorted;
    var f := File(sorted[i], tree[sorted[i]].mode, tree[sorted[i]].payload);
    assert sorted[..i + 1] == sorted[..i] + [sorted[i]];
    forall p | p in sorted[..i + 1] ensures p in tree { assert p in sorted; }
    ListedAppend(tree, sorted[..i], sorted[i]);
    StreamAppend(Listed(tree, sorted[..i]), [f]);
    assert Stream([f]) == Frame(f) + Stream([f][1..]);
    assert Stream([f]) == Frame(f);
  }

  /** The backend's loop over its sorted files. */
  method SourceIdentity(tree: Tree, files: seq<Path>) returns (stream: Option<Bytes>)
    requires forall p :: p in files ==> p in tree
    ensures stream == Identity(ByCodePoint, tree, files)
  {
    if files == [] {
      return None;
    }
    var sorted := Sort(ByCodePoint, files);
    SortedIsListed(ByCodePoint, tree, files);
    var digest: Bytes := [];
    for i := 0 to |sorted|
      invariant forall p :: p in sorted[..i] ==> p in tree
      invariant digest == Stream(Listed(tree, sorted[..i]))
    {
      PrefixListed(tree, sorted, i);
      var payload := tree[sorted[i]].payload;
      digest := digest + (EncodePath(sorted[i]) + [0] + OctalMode(tree[sorted[i]].mode) + [0]
                          + Digits(|payload|, 10) + [0] + payload + [0]);
    }
    assert sorted[..|sorted|] == sorted;
    return Some(digest);
  }

  /** The frontend's loop, which formats the mode in its own way. */
  method FrontendIdentity(tree: Tree, files: seq<Path>) returns (stream: Option<Bytes>)
    requires forall p :: p in files ==> p in tree
    ensures stream == Identity(ByCodeUnit, tree, files)
  {
    if files == [] {
      return None;
    }
    var sorted := Sort(ByCodeUnit, files);
    SortedIsListed(ByCodeUnit, tree, files);
    var hash: Bytes := [];
    for i := 0 to |sorted|
      invariant forall p :: p in sorted[..i] ==> p in tree
      invariant hash == Stream(Listed(tree, sorted[..i]))
    {
      PrefixListed(tree, sorted, i);
      var body := tree[sorted[i]].payload;
      var mode := PadStart(Digits(tree[sorted[i]].mode, 8));
      ModesAgree(tree[sorted[i]].mode);
      hash := hash + (EncodePath(sorted[i]) + [0] + mode + [0] + Digits(|body|, 10) + [0] + body + [0]);
    }
    assert sorted[..|sorted|] == sorted;
    return Some(hash);
  }

  lemma {:induction false} ListedPaths(tree: Tree, a: seq<Path>, b: seq<Path>)
    requires forall p :: p in a ==> p in tree
    requires forall p :: p in b ==> p in tree
    requires Listed(tree, a) == Listed(tree, b)
    ensures a == b
  {
    assert |a| == |b|;
    forall i | 0 <= i < |a| ensures a[i] == b[i] {
      assert Listed(tree, a)[i].path == Listed(tree, b)[i].path;
    }
  }

  /**
   The two programs give the same stream for the same files exactly when no two paths are crossed;
   for such a pair of file names each of them is deterministic, but they differ from each other.
   */
  lemma TwinsAgreeUnlessCrossed(tree: Tree, paths: seq<Path>)
    requires forall p :: p in paths ==> p in tree
    ensures Identity(ByCodePoint, tree, paths) == Identity(ByCodeUnit, tree, paths)
            <==> Uncrossed(paths)
  {
    if Uncrossed(paths) {
      UncrossedAgree(tree, paths);
    } else {
      var p, q :| p in paths && q in paths && Crossed(p, q);
      CrossedDiffer(tree, paths, p, q);
    }
  }

  lemma UncrossedAgree(tree: Tree, paths: seq<Path>)
    requires Uncrossed(paths) && forall p :: p in paths ==> p in tree
    ensures Identity(ByCodePoint, tree, paths) == Identity(ByCodeUnit, tree, paths)
  {
    UncrossedSortAlike(paths);
  }

  lemma CrossedDiffer(tree: Tree, paths: seq<Path>, p: Path, q: Path)
    requires forall x :: x in paths ==> x in tree
    requires p in paths && q in paths && Crossed(p, q)
    ensures Identity(ByCodePoint, tree, paths) != Identity(ByCodeUnit, tree, paths)
  {
    var a, b := Sort(ByCodePoint, paths), Sort(ByCodeUnit, paths);
    SortedIsListed(ByCodePoint, tree, paths);
    SortedIsListed(ByCodeUnit, tree, paths);
    if Stream(Listed(tree, a)) == Stream(Listed(tree, b)) {
      StreamIsInjective(Listed(tree, a), Listed(tree, b));
      ListedPaths(tree, a, b);
      SortSorts(ByCodePoint, paths);
      SortSorts(ByCodeUnit, paths);
      CrossedSortApart(a, p, q);
    }
  }

  lemma UncrossedSortAlike(paths: seq<Path>)
    requires Uncrossed(paths)
    ensures Sort(ByCodePoint, paths) == Sort(ByCodeUnit, paths)
  {
    var a, b := Sort(ByCodePoint, paths), Sort(ByCodeUnit, paths);
    SortSorts(ByCodePoint, paths);
    SortSorts(ByCodeUnit, paths);
    forall i | 0 <= i < |a| ensures a[i] in paths { assert a[i] in multiset(a); }
    UncrossedAscendAlike(a);
    AscendingIsUnique(ByCodeUnit, a, b);
  }

  lemma UncrossedAscendAlike(a: seq<Path>)
    requires forall i, j :: 0 <= i < j < |a| ==> !Crossed(a[i], a[j])
    requires Ascending(ByCodePoint, a)
    ensures Ascending(ByCodeUnit, a)
  {
    forall i, j | 0 <= i < j < |a| ensures Leq(ByCodeUnit, a[i], a[j]) {
      if a[i] == a[j] {
        LexTotal(SortKey(ByCodeUnit, a[i]), SortKey(ByCodeUnit, a[j]));
      } else {
        OrdersAgreeUnlessCrossed(a[i], a[j]);
      }
    }
  }

  lemma {:induction false} CrossedAreDifferent(p: Path, q: Path)
    requires Crossed(p, q)
    ensures p != q && Crossed(q, p)
  {
    if p[0] == q[0] { CrossedAreDifferent(p[1..], q[1..]); }
  }

  lemma CrossedSortApart(a: seq<Path>, p: Path, q: Path)
    requires p in a && q in a && Crossed(p, q)
    ensures !(Ascending(ByCodePoint, a) && Ascending(ByCodeUnit, a))
  {
    CrossedAreDifferent(p, q);
    OrdersAgreeUnlessCrossed(p, q);
    OrdersAgreeUnlessCrossed(q, p);
    var i :| 0 <= i < |a| && a[i] == p;
    var j :| 0 <= j < |a| && a[j] == q;
    assert i != j;
  }
}
