/**
 Anchored rewriting of the frozen trigger texts: exactly-once replacement, the loop that edits one
 table's branch at a time, and replacement of every anchor. The results say which text changes.
 A branch is found by its header, TG_TABLE_NAME='...', and ends at the next branch marker, ELSIF with
 the indentation of the outer IF; both are parameters, because nothing depends on their spelling.
 */
module AnchoredRewrite {
  import opened Wrappers

  /* ---- Python's string operations ---- */

  predicate At(s: string, p: string, i: int) {
    0 <= i && i + |p| <= |s| && forall k :: 0 <= k < |p| ==> s[i + k] == p[k]
  }

  /** `s.index(p, from)`; None is its ValueError. */
  function Find(s: string, p: string, from: nat): (r: Option<nat>)
    ensures r.Some? ==> from <= r.value && r.value + |p| <= |s|
    decreases |s| - from
  {
    if from + |p| > |s| then None
    else if At(s, p, from) then Some(from)
    else Find(s, p, from + 1)
  }

  lemma FoundIsThere(s: string, p: string, from: nat)
    requires Find(s, p, from).Some?
    ensures At(s, p, Find(s, p, from).value)
    decreases |s| - from
  {
    if !At(s, p, from) { FoundIsThere(s, p, from + 1); }
  }

  lemma FindIsFirst(s: string, p: string, from: nat, j: nat)
    requires from <= j && At(s, p, j)
    ensures Find(s, p, from).Some? && Find(s, p, from).value <= j
    decreases |s| - from
  {
    if !At(s, p, from) { FindIsFirst(s, p, from + 1, j); }
  }

  /** `s.count(p)`: occurrences found from the left that do not overlap. */
  function Count(s: string, p: string): nat
    requires p != ""
    decreases |s|
  {
    match Find(s, p, 0)
    case None => 0
    case Some(i) => 1 + Count(s[i + |p|..], p)
  }

  function Splice(s: string, i: nat, n: nat, w: string): string
    requires i + n <= |s|
  {
    s[..i] + w + s[i + n..]
  }

  /** `s.replace(p, w, 1)` after the check `s.count(p) == 1`; None is the RuntimeError. */
  function ReplaceOnce(s: string, p: string, w: string): Option<string>
    requires p != ""
  {
    if Count(s, p) != 1 then None else Some(Splice(s, Find(s, p, 0).value, |p|, w))
  }

  /** `s.replace(p, w)`. */
  function ReplaceAll(s: string, p: string, w: string): string
    requires p != ""
    decreases |s|
  {
    match Find(s, p, 0)
    case None => s
    case Some(i) => s[..i] + w + ReplaceAll(s[i + |p|..], p, w)
  }

  /* ---- When an anchor cannot disturb another text ---- */

  /** However `p` is laid over `w`, some character of the overlap differs. */
  ghost predicate Apart(p: string, w: string) {
    forall d: int :: -|p| < d < |w| ==> Differs(p, w, d)
  }

  predicate Differs(p: string, w: string, d: int) {
    exists k :: 0 <= k < |p| && 0 <= d + k < |w| && p[k] != w[d + k]
  }

  lemma OverlapAgrees(s: string, p: string, j: nat, w: string, i: nat)
    requires At(s, p, j) && At(s, w, i)
    ensures !Differs(p, w, j - i)
  {
    forall k | 0 <= k < |p| && 0 <= j - i + k < |w| ensures p[k] == w[j - i + k] {
      assert s[j..j + |p|][k] == s[j + k] == s[i..i + |w|][j - i + k];
    }
  }

  /** An occurrence of `p` lies wholly before or wholly behind an occurrence of a text it is apart from. */
  lemma ApartNeverOverlaps(s: string, p: string, j: nat, w: string, i: nat)
    requires Apart(p, w) && At(s, p, j) && At(s, w, i)
    ensures j + |p| <= i || j >= i + |w|
  {
    OverlapAgrees(s, p, j, w, i);
  }

  /** Occurrences of `p` in `s` before position `i` stay in `r`, those from `i + n` on move to `i + m` on. */
  ghost predicate Moves(s: string, r: string, p: string, i: nat, n: nat, m: nat) {
    forall j: nat :: MovesAt(s, r, p, i, n, m, j)
  }

  predicate MovesAt(s: string, r: string, p: string, i: nat, n: nat, m: nat, j: nat) {
    At(r, p, j) <==> (j + |p| <= i && At(s, p, j)) || (j >= i + m && At(s, p, j - m + n))
  }

  /** The characters before a splice stay where they are, those behind it move along. */
  lemma SplicedCharacter(s: string, i: nat, n: nat, w: string, x: nat)
    requires i + n <= |s|
    ensures x < i ==> Splice(s, i, n, w)[x] == s[x]
    ensures i + |w| <= x < |s| - n + |w| ==> Splice(s, i, n, w)[x] == s[x - |w| + n]
  {
    var head, tail := s[..i], s[i + n..];
    if x < i {
      assert Splice(s, i, n, w)[x] == head[x];
    } else if i + |w| <= x < |s| - n + |w| {
      assert Splice(s, i, n, w)[x] == tail[x - i - |w|];
    }
  }

  lemma OccurrenceBefore(s: string, i: nat, n: nat, w: string, p: string, j: nat)
    requires i + n <= |s| && j + |p| <= i
    ensures At(Splice(s, i, n, w), p, j) <==> At(s, p, j)
  {
    var r := Splice(s, i, n, w);
    forall x | j <= x < j + |p| ensures r[x] == s[x] { SplicedCharacter(s, i, n, w, x); }
  }

  lemma OccurrenceBehind(s: string, i: nat, n: nat, w: string, p: string, j: nat)
    requires i + n <= |s| && j >= i + |w|
    ensures At(Splice(s, i, n, w), p, j) <==> At(s, p, j - |w| + n)
  {
    var r := Splice(s, i, n, w);
    var m := j - |w| + n;
    if m + |p| <= |s| {
      forall x | j <= x < j + |p| ensures r[x] == s[x - |w| + n] { SplicedCharacter(s, i, n, w, x); }
    }
  }

  lemma OccurrenceMoves(s: string, i: nat, n: nat, w: string, p: string, j: nat)
    requires i + n <= |s|
    ensures var r := Splice(s, i, n, w);
            && (j + |p| <= i ==> (At(r, p, j) <==> At(s, p, j)))
            && (j >= i + |w| ==> (At(r, p, j) <==> At(s, p, j - |w| + n)))
  {
    if j + |p| <= i { OccurrenceBefore(s, i, n, w, p, j); }
    if j >= i + |w| { OccurrenceBehind(s, i, n, w, p, j); }
  }

  /** A splice makes and loses no occurrence of a text that is apart from what it takes out and puts in. */
  lemma OccurrencesMove(s: string, i: nat, anchor: string, w: string, p: string)
    requires At(s, anchor, i) && w != "" && p != "" && Apart(p, anchor) && Apart(p, w)
    ensures Moves(s, Splice(s, i, |anchor|, w), p, i, |anchor|, |w|)
  {
    var r := Splice(s, i, |anchor|, w);
    assert r[i..i + |w|] == w;
    forall j: nat ensures MovesAt(s, r, p, i, |anchor|, |w|, j) {
      OccurrenceMoves(s, i, |anchor|, w, p, j);
      if At(r, p, j) { ApartNeverOverlaps(r, p, j, w, i); }
    }
  }

  /* ---- Branches ---- */

  datatype Span = Span(start: nat, end: nat)

  /** The text from a table's header up to the next branch marker. */
  function Region(sql: string, header: string, marker: string): (r: Option<Span>)
    ensures r.Some? ==> r.value.start <= r.value.end <= |sql|
  {
    match Find(sql, header, 0)
    case None => None
    case Some(start) => (match Find(sql, marker, start) case None => None case Some(end) => Some(Span(start, end)))
  }

  function Branch(sql: string, header: string, marker: string): string
    requires Region(sql, header, marker).Some?
  {
    var span := Region(sql, header, marker).value;
    sql[span.start..span.end]
  }

  /** One turn of the loop: replace the anchor in the table's branch, if it is there exactly once. */
  function EditBranch(sql: string, header: string, marker: string, anchor: string, w: string): Option<string>
    requires anchor != ""
  {
    match Region(sql, header, marker)
    case None => None
    case Some(span) =>
      (match ReplaceOnce(sql[span.start..span.end], anchor, w)
       case None => None
       case Some(branch) => Some(sql[..span.start] + branch + sql[span.end..]))
  }

  function EditBranches(sql: string, headers: seq<string>, marker: string, anchor: string, w: string): Option<string>
    requires anchor != ""
    decreases |headers|
  {
    if headers == [] then Some(sql)
    else
      match EditBranch(sql, headers[0], marker, anchor, w)
      case None => None
      case Some(next) => EditBranches(next, headers[1..], marker, anchor, w)
  }

  /** The loop over the named tables, rebinding the text branch by branch. */
  method RewriteBranches(source: string, headers: seq<string>, marker: string, anchor: string, w: string)
    returns (r: Option<string>)
    requires anchor != ""
    ensures r == EditBranches(source, headers, marker, anchor, w)
  {
    var sql := source;
    var n := 0;
    while n < |headers|
      invariant 0 <= n <= |headers|
      invariant EditBranches(sql, headers[n..], marker, anchor, w) == EditBranches(source, headers, marker, anchor, w)
    {
      assert headers[n..][1..] == headers[n + 1..];
      var start := Find(sql, headers[n], 0);
      if start.None? {
        return None;
      }
      var end := Find(sql, marker, start.value);
      if end.None? {
        return None;
      }
      var branch := sql[start.value..end.value];
      if Count(branch, anchor) != 1 {
        return None;
      }
      sql := sql[..start.value] + Splice(branch, Find(branch, anchor, 0).value, |anchor|, w) + sql[end.value..];
      n := n + 1;
    }
    return Some(sql);
  }

  lemma CountedIsThere(s: string, p: string)
    requires p != "" && Count(s, p) > 0
    ensures Find(s, p, 0).Some?
  {
    assert Count(s, p) == if Find(s, p, 0).None? then 0 else 1 + Count(s[Find(s, p, 0).value + |p|..], p);
  }

  lemma SliceOfSlice(s: string, lo: nat, hi: nat, k: nat, e: nat)
    requires lo <= hi <= |s| && k <= e <= hi - lo
    ensures s[lo..hi][k..e] == s[lo + k..lo + e]
  {
    forall x | 0 <= x < e - k ensures s[lo..hi][k..e][x] == s[lo + k..lo + e][x] {
      assert s[lo..hi][k + x] == s[lo + k + x];
    }
  }

  lemma SpliceInSlice(s: string, lo: nat, hi: nat, k: nat, n: nat, w: string)
    requires lo <= hi <= |s| && lo + k + n <= hi
    ensures s[..lo] + Splice(s[lo..hi], k, n, w) + s[hi..] == Splice(s, lo + k, n, w)
    ensures s[lo..hi][k..k + n] == s[lo + k..lo + k + n]
  {
    var m := s[lo..hi];
    SliceOfSlice(s, lo, hi, k, k + n);
    assert s[..lo] + m[..k] == s[..lo + k];
    assert m[k + n..] + s[hi..] == s[lo + k + n..];
    assert s[..lo] + (m[..k] + w + m[k + n..]) + s[hi..] == (s[..lo] + m[..k]) + w + (m[k + n..] + s[hi..]);
  }

  /** Where the anchor of a branch stands in the whole text. */
  function AnchorAt(sql: string, header: string, marker: string, anchor: string): (i: nat)
    requires Region(sql, header, marker).Some? && Find(Branch(sql, header, marker), anchor, 0).Some?
  {
    Region(sql, header, marker).value.start + Find(Branch(sql, header, marker), anchor, 0).value
  }

  lemma AnchorStands(sql: string, header: string, marker: string, anchor: string)
    requires anchor != "" && Region(sql, header, marker).Some? && Count(Branch(sql, header, marker), anchor) > 0
    ensures Find(Branch(sql, header, marker), anchor, 0).Some?
    ensures var span := Region(sql, header, marker).value;
            var i := AnchorAt(sql, header, marker, anchor);
            span.start <= i && i + |anchor| <= span.end && At(sql, anchor, i)
  {
    CountedIsThere(Branch(sql, header, marker), anchor);
    FoundIsThere(Branch(sql, header, marker), anchor, 0);
  }

  lemma EditAt(sql: string, header: string, marker: string, anchor: string, w: string, span: Span, branch: string, k: nat)
    requires anchor != "" && Region(sql, header, marker) == Some(span) && branch == sql[span.start..span.end]
    requires Count(branch, anchor) == 1 && Find(branch, anchor, 0) == Some(k)
    ensures EditBranch(sql, header, marker, anchor, w) == Some(Splice(sql, span.start + k, |anchor|, w))
  {
    assert ReplaceOnce(branch, anchor, w) == Some(Splice(branch, k, |anchor|, w));
    SpliceInSlice(sql, span.start, span.end, k, |anchor|, w);
  }

  /** Everything outside one occurrence of the anchor, which lies in the table's branch, is as before. */
  lemma EditIsOneSplice(sql: string, header: string, marker: string, anchor: string, w: string)
    requires anchor != "" && Region(sql, header, marker).Some? && Count(Branch(sql, header, marker), anchor) == 1
    ensures Find(Branch(sql, header, marker), anchor, 0).Some?
    ensures EditBranch(sql, header, marker, anchor, w)
            == Some(Splice(sql, AnchorAt(sql, header, marker, anchor), |anchor|, w))
  {
    var branch := Branch(sql, header, marker);
    CountedIsThere(branch, anchor);
    EditAt(sql, header, marker, anchor, w, Region(sql, header, marker).value, branch, Find(branch, anchor, 0).value);
  }

  predicate Disjoint(a: Span, b: Span) {
    a.end <= b.start || b.end <= a.start
  }

  /** The anchor and its replacement are apart from the branch marker and from the header. */
  ghost predicate Neutral(header: string, marker: string, anchor: string, w: string) {
    && header != "" && marker != "" && anchor != "" && w != ""
    && Apart(marker, anchor) && Apart(marker, w)
    && Apart(header, anchor) && Apart(header, w)
  }

  /** Where a span outside the spliced piece ends up. */
  function Moved(span: Span, i: nat, removed: nat, added: nat): Span
    requires span.start <= span.end && (span.end <= i || span.start >= i + removed)
  {
    if span.end <= i then span else Span(span.start - removed + added, span.end - removed + added)
  }

  /** The first occurrence searched for from before the splice is still found first. */
  lemma FirstMoves(s: string, r: string, p: string, i: nat, n: nat, m: nat, from: nat, a: nat)
    requires Moves(s, r, p, i, n, m) && from <= i && Find(s, p, from) == Some(a)
    requires p != "" && (a + |p| <= i || a >= i + n)
    ensures Find(r, p, from) == Some(if a + |p| <= i then a else a - n + m)
  {
    FoundIsThere(s, p, from);
    var b: nat := if a + |p| <= i then a else a - n + m;
    assert MovesAt(s, r, p, i, n, m, b);
    FindIsFirst(r, p, from, b);
    FoundIsThere(r, p, from);
    var f := Find(r, p, from).value;
    assert MovesAt(s, r, p, i, n, m, f);
    if f + |p| <= i && At(s, p, f) {
      FindIsFirst(s, p, from, f);
    } else {
      FindIsFirst(s, p, from, f - m + n);
    }
  }

  /** A search that starts behind the splice moves along with it. */
  lemma LaterMoves(s: string, r: string, p: string, i: nat, n: nat, m: nat, from: nat, a: nat)
    requires Moves(s, r, p, i, n, m) && from >= i + n && Find(s, p, from) == Some(a) && p != ""
    ensures Find(r, p, from - n + m) == Some(a - n + m)
  {
    FoundIsThere(s, p, from);
    assert MovesAt(s, r, p, i, n, m, a - n + m);
    FindIsFirst(r, p, from - n + m, a - n + m);
    FoundIsThere(r, p, from - n + m);
    assert MovesAt(s, r, p, i, n, m, Find(r, p, from - n + m).value);
    FindIsFirst(s, p, from, Find(r, p, from - n + m).value - m + n);
  }

  lemma SpliceMoves(s: string, i: nat, header: string, marker: string, anchor: string, w: string)
    requires Neutral(header, marker, anchor, w) && At(s, anchor, i) && Region(s, header, marker).Some?
    ensures var r := Splice(s, i, |anchor|, w);
            Moves(s, r, header, i, |anchor|, |w|) && Moves(s, r, marker, i, |anchor|, |w|)
    ensures var span := Region(s, header, marker).value;
            && (span.start + |header| <= i || span.start >= i + |anchor|)
            && (span.end + |marker| <= i || span.end >= i + |anchor|)
  {
    var span := Region(s, header, marker).value;
    OccurrencesMove(s, i, anchor, w, header);
    OccurrencesMove(s, i, anchor, w, marker);
    FoundIsThere(s, header, 0);
    FoundIsThere(s, marker, span.start);
    ApartNeverOverlaps(s, header, span.start, anchor, i);
    ApartNeverOverlaps(s, marker, span.end, anchor, i);
  }

  lemma SliceBefore(s: string, i: nat, n: nat, w: string, lo: nat, hi: nat)
    requires i + n <= |s| && lo <= hi <= i
    ensures Splice(s, i, n, w)[lo..hi] == s[lo..hi]
  {
  }

  lemma SliceBehind(s: string, i: nat, n: nat, w: string, lo: nat, hi: nat)
    requires i + n <= lo <= hi <= |s|
    ensures Splice(s, i, n, w)[lo - n + |w|..hi - n + |w|] == s[lo..hi]
  {
  }

  /** A splice outside a branch leaves the branch's text alone and moves it by the difference in length. */
  lemma SpliceOutside(s: string, i: nat, header: string, marker: string, anchor: string, w: string)
    requires Neutral(header, marker, anchor, w) && At(s, anchor, i) && Region(s, header, marker).Some?
    requires var span := Region(s, header, marker).value; span.end <= i || span.start >= i + |anchor|
    ensures var r := Splice(s, i, |anchor|, w);
            && Region(r, header, marker) == Some(Moved(Region(s, header, marker).value, i, |anchor|, |w|))
            && Branch(r, header, marker) == Branch(s, header, marker)
  {
    var span := Region(s, header, marker).value;
    if span.end <= i {
      BranchBefore(s, i, header, marker, anchor, w);
    } else {
      BranchBehind(s, i, header, marker, anchor, w);
    }
  }

  lemma BranchBefore(s: string, i: nat, header: string, marker: string, anchor: string, w: string)
    requires Neutral(header, marker, anchor, w) && At(s, anchor, i) && Region(s, header, marker).Some?
    requires Region(s, header, marker).value.end <= i
    ensures var r := Splice(s, i, |anchor|, w);
            Region(r, header, marker) == Region(s, header, marker) && Branch(r, header, marker) == Branch(s, header, marker)
  {
    var span := Region(s, header, marker).value;
    SpliceMoves(s, i, header, marker, anchor, w);
    var r := Splice(s, i, |anchor|, w);
    FirstMoves(s, r, header, i, |anchor|, |w|, 0, span.start);
    FirstMoves(s, r, marker, i, |anchor|, |w|, span.start, span.end);
    SliceBefore(s, i, |anchor|, w, span.start, span.end);
  }

  lemma RegionBehind(s: string, i: nat, header: string, marker: string, anchor: string, w: string)
    requires Neutral(header, marker, anchor, w) && At(s, anchor, i) && Region(s, header, marker).Some?
    requires Region(s, header, marker).value.start >= i + |anchor|
    ensures Region(Splice(s, i, |anchor|, w), header, marker)
            == Some(Moved(Region(s, header, marker).value, i, |anchor|, |w|))
  {
    var span := Region(s, header, marker).value;
    SpliceMoves(s, i, header, marker, anchor, w);
    var r := Splice(s, i, |anchor|, w);
    FirstMoves(s, r, header, i, |anchor|, |w|, 0, span.start);
    LaterMoves(s, r, marker, i, |anchor|, |w|, span.start, span.end);
  }

  lemma BranchBehind(s: string, i: nat, header: string, marker: string, anchor: string, w: string)
    requires Neutral(header, marker, anchor, w) && At(s, anchor, i) && Region(s, header, marker).Some?
    requires Region(s, header, marker).value.start >= i + |anchor|
    ensures var r := Splice(s, i, |anchor|, w);
            && Region(r, header, marker) == Some(Moved(Region(s, header, marker).value, i, |anchor|, |w|))
            && Branch(r, header, marker) == Branch(s, header, marker)
  {
    var span := Region(s, header, marker).value;
    RegionBehind(s, i, header, marker, anchor, w);
    SliceBehind(s, i, |anchor|, w, span.start, span.end);
  }

  lemma SliceOfSplice(s: string, lo: nat, hi: nat, k: nat, n: nat, w: string)
    requires lo <= hi <= |s| && lo + k + n <= hi
    ensures Splice(s, lo + k, n, w)[lo..hi - n + |w|] == Splice(s[lo..hi], k, n, w)
  {
    SpliceInSlice(s, lo, hi, k, n, w);
    var m := Splice(s[lo..hi], k, n, w);
    assert (s[..lo] + m + s[hi..])[lo..lo + |m|] == m;
  }

  lemma RegionInside(s: string, i: nat, header: string, marker: string, anchor: string, w: string)
    requires Neutral(header, marker, anchor, w) && At(s, anchor, i) && Region(s, header, marker).Some?
    requires var span := Region(s, header, marker).value; span.start <= i && i + |anchor| <= span.end
    ensures var span := Region(s, header, marker).value;
            Region(Splice(s, i, |anchor|, w), header, marker) == Some(Span(span.start, span.end - |anchor| + |w|))
  {
    var span := Region(s, header, marker).value;
    SpliceMoves(s, i, header, marker, anchor, w);
    var r := Splice(s, i, |anchor|, w);
    FirstMoves(s, r, header, i, |anchor|, |w|, 0, span.start);
    FirstMoves(s, r, marker, i, |anchor|, |w|, span.start, span.end);
  }

  /** A splice inside a branch changes exactly that occurrence in the branch's text. */
  lemma SpliceInside(s: string, i: nat, header: string, marker: string, anchor: string, w: string)
    requires Neutral(header, marker, anchor, w) && At(s, anchor, i) && Region(s, header, marker).Some?
    requires var span := Region(s, header, marker).value; span.start <= i && i + |anchor| <= span.end
    ensures var r := Splice(s, i, |anchor|, w);
            var span := Region(s, header, marker).value;
            && Region(r, header, marker) == Some(Span(span.start, span.end - |anchor| + |w|))
            && Branch(r, header, marker) == Splice(Branch(s, header, marker), i - span.start, |anchor|, w)
  {
    var span := Region(s, header, marker).value;
    RegionInside(s, i, header, marker, anchor, w);
    SliceOfSplice(s, span.start, span.end, i - span.start, |anchor|, w);
  }

  /* ---- The loop ---- */

  /** The tables' branches are there and do not overlap. */
  ghost predicate Laid(sql: string, headers: seq<string>, marker: string) {
    && (forall h :: h in headers ==> Region(sql, h, marker).Some?)
    && (forall h, g :: h in headers && g in headers && h != g ==>
          Disjoint(Region(sql, h, marker).value, Region(sql, g, marker).value))
  }

  /** One turn of the loop rewrites the anchor of the named branch. */
  lemma EditNamedBranch(sql: string, header: string, marker: string, anchor: string, w: string)
    requires Neutral(header, marker, anchor, w) && Region(sql, header, marker).Some?
    requires Count(Branch(sql, header, marker), anchor) == 1
    ensures EditBranch(sql, header, marker, anchor, w).Some?
    ensures var r := EditBranch(sql, header, marker, anchor, w).value;
            var span := Region(sql, header, marker).value;
            && Region(r, header, marker) == Some(Span(span.start, span.end - |anchor| + |w|))
            && Some(Branch(r, header, marker)) == ReplaceOnce(Branch(sql, header, marker), anchor, w)
  {
    AnchorStands(sql, header, marker, anchor);
    EditIsOneSplice(sql, header, marker, anchor, w);
    SpliceInside(sql, AnchorAt(sql, header, marker, anchor), header, marker, anchor, w);
  }

  /** It leaves every other branch as it was, and still disjoint. */
  lemma EditKeepsOtherBranch(sql: string, header: string, other: string, marker: string, anchor: string, w: string)
    requires Neutral(other, marker, anchor, w) && Region(sql, header, marker).Some? && Region(sql, other, marker).Some?
    requires Disjoint(Region(sql, other, marker).value, Region(sql, header, marker).value)
    requires Count(Branch(sql, header, marker), anchor) == 1
    ensures EditBranch(sql, header, marker, anchor, w).Some?
    ensures var r := EditBranch(sql, header, marker, anchor, w).value;
            && Find(Branch(sql, header, marker), anchor, 0).Some?
            && var i := AnchorAt(sql, header, marker, anchor);
            var x := Region(sql, other, marker).value;
            && (x.end <= i || x.start >= i + |anchor|)
            && Region(r, other, marker) == Some(Moved(x, i, |anchor|, |w|))
            && Branch(r, other, marker) == Branch(sql, other, marker)
  {
    AnchorStands(sql, header, marker, anchor);
    EditIsOneSplice(sql, header, marker, anchor, w);
    SpliceOutside(sql, AnchorAt(sql, header, marker, anchor), other, marker, anchor, w);
  }

  ghost predicate NeutralAll(headers: seq<string>, marker: string, anchor: string, w: string) {
    forall h :: h in headers ==> Neutral(h, marker, anchor, w)
  }

  lemma EditKeepsBranches(sql: string, header: string, headers: seq<string>, marker: string, anchor: string, w: string)
    requires anchor != "" && NeutralAll(headers, marker, anchor, w) && Laid(sql, headers, marker) && header in headers
    requires Count(Branch(sql, header, marker), anchor) == 1
    ensures EditBranch(sql, header, marker, anchor, w).Some?
    ensures Find(Branch(sql, header, marker), anchor, 0).Some?
    ensures var r := EditBranch(sql, header, marker, anchor, w).value;
            var i := AnchorAt(sql, header, marker, anchor);
            forall h :: h in headers && h != header ==>
              && Region(r, h, marker).Some? && Branch(r, h, marker) == Branch(sql, h, marker)
              && var x := Region(sql, h, marker).value;
              && (x.end <= i || x.start >= i + |anchor|)
              && Region(r, h, marker) == Some(Moved(x, i, |anchor|, |w|))
  {
    AnchorStands(sql, header, marker, anchor);
    EditIsOneSplice(sql, header, marker, anchor, w);
    forall h | h in headers && h != header
      ensures var r := EditBranch(sql, header, marker, anchor, w).value;
              var i := AnchorAt(sql, header, marker, anchor);
              && Region(r, h, marker).Some? && Branch(r, h, marker) == Branch(sql, h, marker)
              && var x := Region(sql, h, marker).value;
              && (x.end <= i || x.start >= i + |anchor|)
              && Region(r, h, marker) == Some(Moved(x, i, |anchor|, |w|))
    {
      EditKeepsOtherBranch(sql, header, h, marker, anchor, w);
    }
  }

  /** The edited branch grows where it stands; the spans around it move out of its way. */
  lemma MovedStaysDisjoint(edited: Span, i: nat, removed: nat, added: nat, x: Span)
    requires edited.start <= i && i + removed <= edited.end && x.start <= x.end
    requires Disjoint(x, edited) && (x.end <= i || x.start >= i + removed) && removed > 0
    ensures Disjoint(Moved(x, i, removed, added), Span(edited.start, edited.end - removed + added))
  {
  }

  lemma MovedStayDisjoint(i: nat, removed: nat, added: nat, x: Span, y: Span)
    requires x.start <= x.end && (x.end <= i || x.start >= i + removed)
    requires y.start <= y.end && (y.end <= i || y.start >= i + removed)
    requires Disjoint(x, y)
    ensures Disjoint(Moved(x, i, removed, added), Moved(y, i, removed, added))
  {
  }

  lemma EditKeepsLayout(sql: string, header: string, headers: seq<string>, marker: string, anchor: string, w: string)
    requires anchor != "" && NeutralAll(headers, marker, anchor, w) && Laid(sql, headers, marker) && header in headers
    requires Count(Branch(sql, header, marker), anchor) == 1
    ensures EditBranch(sql, header, marker, anchor, w).Some?
    ensures Laid(EditBranch(sql, header, marker, anchor, w).value, headers, marker)
  {
    AnchorStands(sql, header, marker, anchor);
    EditNamedBranch(sql, header, marker, anchor, w);
    EditKeepsBranches(sql, header, headers, marker, anchor, w);
    var r := EditBranch(sql, header, marker, anchor, w).value;
    var i := AnchorAt(sql, header, marker, anchor);
    var edited := Region(sql, header, marker).value;
    forall h, g | h in headers && g in headers && h != g
      ensures Disjoint(Region(r, h, marker).value, Region(r, g, marker).value)
    {
      var x, y := Region(sql, h, marker).value, Region(sql, g, marker).value;
      if h == header {
        MovedStaysDisjoint(edited, i, |anchor|, |w|, y);
      } else if g == header {
        MovedStaysDisjoint(edited, i, |anchor|, |w|, x);
      } else {
        MovedStayDisjoint(i, |anchor|, |w|, x, y);
      }
    }
  }

  /**
   The whole loop: it succeeds, every named branch has its one anchor replaced, and every other
   branch keeps its text to the character.
   */
  lemma {:induction false} LoopEditsNamedBranches(sql: string, named: seq<string>, headers: seq<string>,
                                                  marker: string, anchor: string, w: string)
    requires anchor != "" && NeutralAll(headers, marker, anchor, w) && Laid(sql, headers, marker)
    requires forall h :: h in named ==> h in headers && Count(Branch(sql, h, marker), anchor) == 1
    requires forall i, j :: 0 <= i < j < |named| ==> named[i] != named[j]
    ensures EditBranches(sql, named, marker, anchor, w).Some?
    ensures var r := EditBranches(sql, named, marker, anchor, w).value;
            && Laid(r, headers, marker)
            && (forall h :: h in named ==>
                  Some(Branch(r, h, marker)) == ReplaceOnce(Branch(sql, h, marker), anchor, w))
            && (forall h :: h in headers && h !in named ==> Branch(r, h, marker) == Branch(sql, h, marker))
    decreases |named|
  {
    if named != [] {
      EditNamedBranch(sql, named[0], marker, anchor, w);
      EditKeepsBranches(sql, named[0], headers, marker, anchor, w);
      EditKeepsLayout(sql, named[0], headers, marker, anchor, w);
      var next := EditBranch(sql, named[0], marker, anchor, w).value;
      forall h | h in named[1..]
        ensures h in headers && h != named[0] && Count(Branch(next, h, marker), anchor) == 1
      {
        var j :| 0 <= j < |named[1..]| && named[1..][j] == h;
        assert h == named[j + 1];
      }
      LoopEditsNamedBranches(next, named[1..], headers, marker, anchor, w);
    }
  }

  /* ---- The text around the branches ---- */

  /** The pieces with a text between any two of them. */
  function Join(pieces: seq<string>, between: string): string
    requires pieces != []
  {
    if |pieces| == 1 then pieces[0] else pieces[0] + between + Join(pieces[1..], between)
  }

  /** In the joined text, the text between two pieces begins at `q`. */
  predicate IsSeam(pieces: seq<string>, between: string, q: int) {
    |pieces| > 1
    && (q == |pieces[0]| || IsSeam(pieces[1..], between, q - |pieces[0]| - |between|))
  }

  lemma {:induction false} SeamsAreInside(pieces: seq<string>, between: string, q: int)
    requires IsSeam(pieces, between, q)
    ensures 0 <= q && q + |between| <= |Join(pieces, between)|
  {
    if q != |pieces[0]| { SeamsAreInside(pieces[1..], between, q - |pieces[0]| - |between|); }
  }

  /** Seams of a list whose first piece is cut in two at `i`. */
  ghost predicate CutSeams(finer: seq<string>, pieces: seq<string>, between: string, w: string, i: nat) {
    forall q: int :: CutSeam(finer, pieces, between, w, i, q)
  }

  predicate CutSeam(finer: seq<string>, pieces: seq<string>, between: string, w: string, i: nat, q: int) {
    IsSeam(finer, between, q) <==>
      q == i || (q + |between| <= i && IsSeam(pieces, between, q))
      || (q >= i + |between| && IsSeam(pieces, between, q - |between| + |w|))
  }

  lemma JoinStep(pieces: seq<string>, between: string)
    requires |pieces| > 1
    ensures Join(pieces, between) == pieces[0] + between + Join(pieces[1..], between)
  {
  }

  lemma JoinCut(x: string, y: string, rest: seq<string>, between: string)
    ensures Join([x, y] + rest, between) == x + between + Join([y] + rest, between)
  {
    assert ([x, y] + rest)[1..] == [y] + rest;
  }

  /** A first piece that holds `w` is what two pieces joined by `w` are. */
  lemma JoinsAlike(x: string, w: string, y: string, rest: seq<string>)
    ensures Join([x, y] + rest, w) == Join([x + w + y] + rest, w)
  {
    JoinCut(x, y, rest, w);
    if rest == [] {
      assert [y] + rest == [y] && [x + w + y] + rest == [x + w + y];
    } else {
      assert ([y] + rest)[1..] == rest && ([x + w + y] + rest)[1..] == rest;
      assert x + w + (y + w + Join(rest, w)) == (x + w + y) + w + Join(rest, w);
    }
  }

  lemma JoinTail(x: string, y: string, rest: seq<string>, between: string)
    ensures Join([x + y] + rest, between) == x + Join([y] + rest, between)
  {
    if rest == [] {
      assert [y] + rest == [y] && [x + y] + rest == [x + y];
    } else {
      assert ([y] + rest)[1..] == rest && ([x + y] + rest)[1..] == rest;
      assert (x + y) + between + Join(rest, between) == x + (y + between + Join(rest, between));
    }
  }

  lemma CutFirst(x: string, w: string, y: string, rest: seq<string>, between: string)
    ensures Join([x, y] + rest, between) == Splice(Join([x + w + y] + rest, between), |x|, |w|, between)
  {
    JoinCut(x, y, rest, between);
    JoinTail(x + w, y, rest, between);
    var tail := Join([y] + rest, between);
    assert (x + w + tail)[..|x|] == x && (x + w + tail)[|x| + |w|..] == tail;
  }

  lemma CutFirstSeams(x: string, w: string, y: string, rest: seq<string>, between: string)
    requires between != ""
    ensures CutSeams([x, y] + rest, [x + w + y] + rest, between, w, |x|)
  {
    var finer, pieces := [x, y] + rest, [x + w + y] + rest;
    assert finer[1..] == [y] + rest && ([y] + rest)[1..] == rest && pieces[1..] == rest;
    forall q: int ensures CutSeam(finer, pieces, between, w, |x|, q) {
      if IsSeam(rest, between, q - |x| - |between| - |y| - |between|) {
        SeamsAreInside(rest, between, q - |x| - |between| - |y| - |between|);
      }
      if IsSeam(rest, between, q - |x + w + y| - |between|) {
        SeamsAreInside(rest, between, q - |x + w + y| - |between|);
      }
    }
  }

  lemma SpliceTail(head: string, tail: string, i: nat, n: nat, w: string)
    requires i + n <= |tail|
    ensures Splice(head + tail, |head| + i, n, w) == head + Splice(tail, i, n, w)
  {
    assert (head + tail)[..|head| + i] == head + tail[..i];
    assert (head + tail)[|head| + i + n..] == tail[i + n..];
    assert (head + tail[..i]) + w + tail[i + n..] == head + (tail[..i] + w + tail[i + n..]);
  }

  lemma CutLater(p: string, finer: seq<string>, rest: seq<string>, between: string, w: string, i: nat)
    requires rest != [] && |finer| == |rest| + 1 && i + |w| <= |Join(rest, between)|
    requires Join(finer, between) == Splice(Join(rest, between), i, |w|, between) && Join(finer, w) == Join(rest, w)
    ensures Join([p] + finer, between) == Splice(Join([p] + rest, between), |p| + |between| + i, |w|, between)
    ensures Join([p] + finer, w) == Join([p] + rest, w)
  {
    assert ([p] + finer)[1..] == finer && ([p] + rest)[1..] == rest;
    SpliceTail(p + between, Join(rest, between), i, |w|, between);
  }

  lemma CutLaterSeams(p: string, finer: seq<string>, rest: seq<string>, between: string, w: string, i: nat)
    requires rest != [] && |finer| == |rest| + 1 && between != "" && CutSeams(finer, rest, between, w, i)
    ensures CutSeams([p] + finer, [p] + rest, between, w, |p| + |between| + i)
  {
    assert ([p] + finer)[1..] == finer && ([p] + rest)[1..] == rest;
    var j := |p| + |between| + i;
    forall q: int ensures CutSeam([p] + finer, [p] + rest, between, w, j, q) {
      assert CutSeam(finer, rest, between, w, i, q - |p| - |between|);
      if IsSeam(rest, between, q - |between| + |w| - |p| - |between|) {
        SeamsAreInside(rest, between, q - |between| + |w| - |p| - |between|);
      }
    }
  }

  /** Where `w` stands inside one of the pieces, that piece is two pieces joined by `w`. */
  lemma {:induction false} CutPiece(pieces: seq<string>, between: string, w: string, i: nat) returns (finer: seq<string>)
    requires pieces != [] && between != "" && At(Join(pieces, between), w, i)
    requires forall q :: IsSeam(pieces, between, q) ==> q + |between| <= i || q >= i + |w|
    ensures |finer| == |pieces| + 1
    ensures Join(finer, between) == Splice(Join(pieces, between), i, |w|, between) && Join(finer, w) == Join(pieces, w)
    ensures CutSeams(finer, pieces, between, w, i)
    decreases |pieces|
  {
    var p, rest := pieces[0], pieces[1..];
    assert pieces == [p] + rest;
    if |pieces| == 1 || i + |w| <= |p| {
      var x, y := p[..i], p[i + |w|..];
      WithinPiece(p, rest, between, w, i);
      CutFirst(x, w, y, rest, between);
      JoinsAlike(x, w, y, rest);
      CutFirstSeams(x, w, y, rest, between);
      finer := [x, y] + rest;
    } else {
      assert IsSeam(pieces, between, |p|);
      var j := i - |p| - |between|;
      BehindPiece(p, rest, between, w, i);
      forall q | IsSeam(rest, between, q) ensures q + |between| <= j || q >= j + |w| {
        assert IsSeam(pieces, between, q + |p| + |between|);
      }
      var later := CutPiece(rest, between, w, j);
      CutLater(p, later, rest, between, w, j);
      CutLaterSeams(p, later, rest, between, w, j);
      finer := [p] + later;
    }
  }

  lemma WithinPiece(p: string, rest: seq<string>, between: string, w: string, i: nat)
    requires At(Join([p] + rest, between), w, i) && (rest == [] || i + |w| <= |p|)
    ensures i + |w| <= |p| && p == p[..i] + w + p[i + |w|..]
  {
    var t := Join([p] + rest, between);
    if rest == [] { assert t == p; } else { assert t[..|p|] == p; }
    forall k | 0 <= k < |w| ensures p[i..i + |w|][k] == w[k] { assert t[i + k] == p[i + k]; }
    assert p[i..i + |w|] == w;
    CutsInThree(p, i, i + |w|);
  }

  lemma AtInTail(head: string, tail: string, w: string, i: nat)
    requires i >= |head| && At(head + tail, w, i)
    ensures At(tail, w, i - |head|)
  {
    var s := head + tail;
    var j := i - |head|;
    assert s[i..i + |w|] == tail[j..j + |w|];
    forall k | 0 <= k < |w| ensures tail[j + k] == w[k] {
      assert s[i..i + |w|][k] == s[i + k] && tail[j..j + |w|][k] == tail[j + k];
    }
  }

  lemma BehindPiece(p: string, rest: seq<string>, between: string, w: string, i: nat)
    requires rest != [] && At(Join([p] + rest, between), w, i) && i >= |p| + |between|
    ensures At(Join(rest, between), w, i - |p| - |between|)
  {
    assert ([p] + rest)[1..] == rest;
    AtInTail(p + between, Join(rest, between), w, i);
  }

  /* ---- The whole loop, with the text around it ---- */

  /** Another branch's anchor moves with its branch. */
  lemma AnchorMoves(sql: string, header: string, other: string, marker: string, anchor: string, w: string)
    requires Neutral(other, marker, anchor, w) && Region(sql, header, marker).Some? && Region(sql, other, marker).Some?
    requires Disjoint(Region(sql, other, marker).value, Region(sql, header, marker).value)
    requires Count(Branch(sql, header, marker), anchor) == 1 && Count(Branch(sql, other, marker), anchor) == 1
    ensures EditBranch(sql, header, marker, anchor, w).Some?
    ensures Find(Branch(sql, header, marker), anchor, 0).Some? && Find(Branch(sql, other, marker), anchor, 0).Some?
    ensures var next := EditBranch(sql, header, marker, anchor, w).value;
            && Region(next, other, marker).Some? && Find(Branch(next, other, marker), anchor, 0).Some?
            && var i := AnchorAt(sql, header, marker, anchor);
            var a, b := AnchorAt(sql, other, marker, anchor), AnchorAt(next, other, marker, anchor);
            AnchorMoved(a, b, i, |anchor|, |w|)
  {
    AnchorStands(sql, header, marker, anchor);
    AnchorStands(sql, other, marker, anchor);
    EditKeepsOtherBranch(sql, header, other, marker, anchor, w);
  }

  /** The edit of one branch undone: putting the anchor back. */
  lemma EditIsUndone(sql: string, header: string, marker: string, anchor: string, w: string)
    requires anchor != "" && Region(sql, header, marker).Some? && Count(Branch(sql, header, marker), anchor) == 1
    ensures Find(Branch(sql, header, marker), anchor, 0).Some? && EditBranch(sql, header, marker, anchor, w).Some?
    ensures var i := AnchorAt(sql, header, marker, anchor);
            var next := EditBranch(sql, header, marker, anchor, w).value;
            At(next, w, i) && Splice(next, i, |w|, anchor) == sql
  {
    AnchorStands(sql, header, marker, anchor);
    EditIsOneSplice(sql, header, marker, anchor, w);
    SpliceBack(sql, AnchorAt(sql, header, marker, anchor), anchor, w);
  }

  lemma SpliceBack(s: string, i: nat, anchor: string, w: string)
    requires At(s, anchor, i)
    ensures At(Splice(s, i, |anchor|, w), w, i) && Splice(Splice(s, i, |anchor|, w), i, |w|, anchor) == s
  {
    var head, tail := s[..i], s[i + |anchor|..];
    var r := head + w + tail;
    assert r[..i] == head && r[i + |w|..] == tail;
    assert s[i..i + |anchor|] == anchor;
    CutsInThree(s, i, i + |anchor|);
  }

  /** The anchor of the table's branch stands at `q`. */
  predicate AnchorIs(sql: string, header: string, marker: string, anchor: string, q: int) {
    && Region(sql, header, marker).Some? && Find(Branch(sql, header, marker), anchor, 0).Some?
    && q == AnchorAt(sql, header, marker, anchor)
  }

  predicate NamedAnchor(sql: string, named: seq<string>, marker: string, anchor: string, q: int) {
    exists h :: h in named && AnchorIs(sql, h, marker, anchor, q)
  }

  /** In the pieces of a text, the seams are the anchors of the named branches. */
  ghost predicate SeamsAreAnchors(pieces: seq<string>, sql: string, named: seq<string>, marker: string, anchor: string) {
    forall q: int :: IsSeam(pieces, anchor, q) <==> NamedAnchor(sql, named, marker, anchor, q)
  }

  /** A position before the spliced piece stays, one behind it moves along. */
  predicate AnchorMoved(a: int, b: int, i: int, removed: nat, added: nat) {
    (a + removed <= i && b == a) || (a >= i + removed && b == a - removed + added)
  }

  /** What one turn does to another named branch. */
  ghost predicate StaysNamed(sql: string, next: string, header: string, headers: seq<string>,
                             marker: string, anchor: string, i: int, added: nat) {
    && anchor != "" && header in headers && Region(next, header, marker).Some?
    && Count(Branch(next, header, marker), anchor) == 1
    && exists a, b :: AnchorIs(sql, header, marker, anchor, a) && AnchorIs(next, header, marker, anchor, b)
                      && AnchorMoved(a, b, i, |anchor|, added)
  }

  lemma OtherStaysNamed(sql: string, header: string, other: string, headers: seq<string>,
                        marker: string, anchor: string, w: string, next: string, i: int)
    requires anchor != "" && NeutralAll(headers, marker, anchor, w) && Laid(sql, headers, marker)
    requires header in headers && other in headers && header != other
    requires Count(Branch(sql, header, marker), anchor) == 1 && Count(Branch(sql, other, marker), anchor) == 1
    requires EditBranch(sql, header, marker, anchor, w) == Some(next) && AnchorIs(sql, header, marker, anchor, i)
    ensures StaysNamed(sql, next, other, headers, marker, anchor, i, |w|)
  {
    AnchorMoves(sql, header, other, marker, anchor, w);
    EditKeepsOtherBranch(sql, header, other, marker, anchor, w);
    var a, b := AnchorAt(sql, other, marker, anchor), AnchorAt(next, other, marker, anchor);
    assert AnchorIs(sql, other, marker, anchor, a) && AnchorIs(next, other, marker, anchor, b);
  }

  lemma OthersStayNamed(sql: string, named: seq<string>, headers: seq<string>,
                        marker: string, anchor: string, w: string, next: string, i: int)
    requires anchor != "" && NeutralAll(headers, marker, anchor, w) && Laid(sql, headers, marker) && named != []
    requires forall h :: h in named ==> h in headers && Count(Branch(sql, h, marker), anchor) == 1
    requires forall i, j :: 0 <= i < j < |named| ==> named[i] != named[j]
    requires EditBranch(sql, named[0], marker, anchor, w) == Some(next) && AnchorIs(sql, named[0], marker, anchor, i)
    ensures forall h :: h in named[1..] ==> StaysNamed(sql, next, h, headers, marker, anchor, i, |w|)
  {
    forall h | h in named[1..] ensures StaysNamed(sql, next, h, headers, marker, anchor, i, |w|) {
      var j :| 0 <= j < |named[1..]| && named[1..][j] == h;
      assert h == named[j + 1];
      OtherStaysNamed(sql, named[0], h, headers, marker, anchor, w, next, i);
    }
  }

  /** The anchors still to come, found before and after the turn. */
  lemma LaterAnchors(sql: string, next: string, named: seq<string>, headers: seq<string>,
                     marker: string, anchor: string, i: int, added: nat, q: int)
    requires forall h :: h in named ==> StaysNamed(sql, next, h, headers, marker, anchor, i, added)
    ensures NamedAnchor(sql, named, marker, anchor, q) <==>
              || (q + |anchor| <= i && NamedAnchor(next, named, marker, anchor, q))
              || (q >= i + |anchor| && NamedAnchor(next, named, marker, anchor, q - |anchor| + added))
    ensures NamedAnchor(next, named, marker, anchor, q) ==> q + |anchor| <= i || q >= i + added
  {
    forall h, x | h in named && AnchorIs(sql, h, marker, anchor, x)
      ensures || (x + |anchor| <= i && AnchorIs(next, h, marker, anchor, x))
              || (x >= i + |anchor| && AnchorIs(next, h, marker, anchor, x - |anchor| + added))
    {
      assert StaysNamed(sql, next, h, headers, marker, anchor, i, added);
    }
    forall h, x | h in named && AnchorIs(next, h, marker, anchor, x)
      ensures || (x + |anchor| <= i && AnchorIs(sql, h, marker, anchor, x))
              || (x >= i + added && AnchorIs(sql, h, marker, anchor, x + |anchor| - added))
    {
      assert StaysNamed(sql, next, h, headers, marker, anchor, i, added);
    }
  }

  /** A turn cuts the piece its anchor lies in, and the seams are the anchors again. */
  lemma SeamsAfterCut(finer: seq<string>, pieces: seq<string>, sql: string, next: string, named: seq<string>,
                      headers: seq<string>, marker: string, anchor: string, w: string, i: nat)
    requires named != [] && AnchorIs(sql, named[0], marker, anchor, i)
    requires forall h :: h in named[1..] ==> StaysNamed(sql, next, h, headers, marker, anchor, i, |w|)
    requires SeamsAreAnchors(pieces, next, named[1..], marker, anchor)
    requires CutSeams(finer, pieces, anchor, w, i)
    ensures SeamsAreAnchors(finer, sql, named, marker, anchor)
  {
    forall q: int ensures IsSeam(finer, anchor, q) <==> NamedAnchor(sql, named, marker, anchor, q) {
      assert CutSeam(finer, pieces, anchor, w, i, q);
      LaterAnchors(sql, next, named[1..], headers, marker, anchor, i, |w|, q);
      FirstOrLater(sql, named, marker, anchor, i, q);
    }
  }

  lemma FirstOrLater(sql: string, named: seq<string>, marker: string, anchor: string, i: nat, q: int)
    requires named != [] && AnchorIs(sql, named[0], marker, anchor, i)
    ensures NamedAnchor(sql, named, marker, anchor, q) <==> q == i || NamedAnchor(sql, named[1..], marker, anchor, q)
  {
    assert named == [named[0]] + named[1..];
  }

  /**
   The text before, between and behind the named branches' anchors is the same to the character:
   both texts are the same pieces, joined once by the anchor and once by its replacement, and the
   joints are where the named branches' anchors stand.
   */
  lemma {:induction false} LoopExchangesAnchors(sql: string, named: seq<string>, headers: seq<string>,
                                                marker: string, anchor: string, w: string)
    returns (pieces: seq<string>)
    requires anchor != "" && NeutralAll(headers, marker, anchor, w) && Laid(sql, headers, marker)
    requires forall h :: h in named ==> h in headers && Count(Branch(sql, h, marker), anchor) == 1
    requires forall i, j :: 0 <= i < j < |named| ==> named[i] != named[j]
    ensures |pieces| == |named| + 1 && SeamsAreAnchors(pieces, sql, named, marker, anchor)
    ensures Join(pieces, anchor) == sql && Some(Join(pieces, w)) == EditBranches(sql, named, marker, anchor, w)
    decreases |named|, 1
  {
    if named == [] {
      return [sql];
    }
    EditIsUndone(sql, named[0], marker, anchor, w);
    EditKeepsLayout(sql, named[0], headers, marker, anchor, w);
    var next := EditBranch(sql, named[0], marker, anchor, w).value;
    var i := AnchorAt(sql, named[0], marker, anchor);
    OthersStayNamed(sql, named, headers, marker, anchor, w, next, i);
    pieces := ExchangeOnce(sql, next, named, headers, marker, anchor, w, i);
  }

  lemma ExchangeOnce(sql: string, next: string, named: seq<string>, headers: seq<string>,
                     marker: string, anchor: string, w: string, i: nat)
    returns (pieces: seq<string>)
    requires anchor != "" && named != [] && NeutralAll(headers, marker, anchor, w) && Laid(next, headers, marker)
    requires forall i, j :: 0 <= i < j < |named| ==> named[i] != named[j]
    requires EditBranch(sql, named[0], marker, anchor, w) == Some(next) && AnchorIs(sql, named[0], marker, anchor, i)
    requires At(next, w, i) && Splice(next, i, |w|, anchor) == sql
    requires forall h :: h in named[1..] ==> StaysNamed(sql, next, h, headers, marker, anchor, i, |w|)
    ensures |pieces| == |named| + 1 && SeamsAreAnchors(pieces, sql, named, marker, anchor)
    ensures Join(pieces, anchor) == sql && Some(Join(pieces, w)) == EditBranches(sql, named, marker, anchor, w)
    decreases |named|, 0
  {
    var later := LoopExchangesAnchors(next, named[1..], headers, marker, anchor, w);
    forall q | IsSeam(later, anchor, q) ensures q + |anchor| <= i || q >= i + |w| {
      LaterAnchors(sql, next, named[1..], headers, marker, anchor, i, |w|, q);
    }
    pieces := CutPiece(later, anchor, w, i);
    SeamsAfterCut(pieces, later, sql, next, named, headers, marker, anchor, w, i);
  }

  /* ---- What an anchor stands for ---- */

  /** No proper overlap of the text with itself: counting once means occurring once. */
  ghost predicate Borderless(p: string) {
    forall d: int :: 0 < d < |p| ==> Differs(p, p, d)
  }

  lemma OccurrencesApart(s: string, p: string, lo: nat, hi: nat)
    requires Borderless(p) && At(s, p, lo) && At(s, p, hi) && lo < hi
    ensures lo + |p| <= hi
  {
    OverlapAgrees(s, p, hi, p, lo);
  }

  lemma CountsOnce(s: string, p: string, rest: string)
    requires p != "" && Find(s, p, 0).Some? && rest == s[Find(s, p, 0).value + |p|..]
    ensures Count(s, p) == 1 + Count(rest, p)
  {
  }

  lemma TwoCountTwice(s: string, p: string, lo: nat, hi: nat)
    requires p != "" && At(s, p, lo) && At(s, p, hi) && lo + |p| <= hi
    ensures Count(s, p) >= 2
  {
    FindIsFirst(s, p, 0, lo);
    var cut := Find(s, p, 0).value + |p|;
    CountsOnce(s, p, s[cut..]);
    FindIsFirst(s[cut..], p, 0, hi - cut);
    CountsOnce(s[cut..], p, s[cut..][Find(s[cut..], p, 0).value + |p|..]);
  }

  lemma OnlyOccurrence(s: string, p: string, i: nat, j: nat)
    requires p != "" && Borderless(p) && Count(s, p) == 1 && At(s, p, i) && At(s, p, j)
    ensures j == i
  {
    if j != i {
      var lo, hi := if j < i then j else i, if j < i then i else j;
      OccurrencesApart(s, p, lo, hi);
      TwoCountTwice(s, p, lo, hi);
    }
  }

  lemma SpliceMiddle(before: string, p: string, after: string, w: string)
    ensures Splice(before + p + after, |before|, |p|, w) == before + w + after
  {
    var s := before + p + after;
    assert s[..|before|] == before;
    assert s[|before| + |p|..] == after;
  }

  /** So the exactly-once replacement exchanges the condition itself and keeps what stands around it. */
  lemma ReplaceOnceExchanges(before: string, p: string, after: string, w: string)
    requires p != "" && Borderless(p) && Count(before + p + after, p) == 1
    ensures ReplaceOnce(before + p + after, p, w) == Some(before + w + after)
  {
    var s := before + p + after;
    CountedIsThere(s, p);
    FoundIsThere(s, p, 0);
    OnlyOccurrence(s, p, |before|, Find(s, p, 0).value);
    SpliceMiddle(before, p, after, w);
  }

  /* ---- Replacing every anchor ---- */

  lemma FindInFront(a: string, b: string, p: string, k: nat)
    requires Find(a, p, 0) == Some(k)
    ensures Find(a + b, p, 0) == Some(k)
  {
    var s := a + b;
    FoundIsThere(a, p, 0);
    assert s[k..k + |p|] == a[k..k + |p|];
    FindIsFirst(s, p, 0, k);
    FoundIsThere(s, p, 0);
    var f := Find(s, p, 0).value;
    assert s[f..f + |p|] == a[f..f + |p|];
    FindIsFirst(a, p, 0, f);
  }

  /** No occurrence of `p` starts in `a` and ends in `b`. */
  ghost predicate CleanSeam(a: string, b: string, p: string) {
    forall j :: 0 <= j < |a| && At(a + b, p, j) ==> j + |p| <= |a|
  }

  lemma OccurrenceIsBehind(a: string, b: string, p: string, j: nat)
    requires Find(a, p, 0).None? && CleanSeam(a, b, p) && At(a + b, p, j)
    ensures j >= |a| && At(b, p, j - |a|)
  {
    if j < |a| {
      assert (a + b)[j..j + |p|] == a[j..j + |p|];
      FindIsFirst(a, p, 0, j);
    } else {
      assert (a + b)[j..j + |p|] == b[j - |a|..j - |a| + |p|];
    }
  }

  lemma FindNeither(a: string, b: string, p: string)
    requires Find(a, p, 0).None? && Find(b, p, 0).None? && CleanSeam(a, b, p)
    ensures Find(a + b, p, 0).None?
  {
    if Find(a + b, p, 0).Some? {
      FoundIsThere(a + b, p, 0);
      OccurrenceIsBehind(a, b, p, Find(a + b, p, 0).value);
      FindIsFirst(b, p, 0, Find(a + b, p, 0).value - |a|);
    }
  }

  lemma AtBehind(a: string, b: string, p: string, k: nat)
    requires At(b, p, k)
    ensures At(a + b, p, |a| + k)
  {
    assert (a + b)[|a| + k..|a| + k + |p|] == b[k..k + |p|];
  }

  lemma FindBehind(a: string, b: string, p: string, k: nat)
    requires Find(a, p, 0).None? && Find(b, p, 0) == Some(k) && CleanSeam(a, b, p)
    ensures Find(a + b, p, 0) == Some(|a| + k)
  {
    var s := a + b;
    FoundIsThere(b, p, 0);
    AtBehind(a, b, p, k);
    FindIsFirst(s, p, 0, |a| + k);
    FoundIsThere(s, p, 0);
    var f := Find(s, p, 0).value;
    OccurrenceIsBehind(a, b, p, f);
    FindIsFirst(b, p, 0, f - |a|);
  }

  lemma CutsInThree(s: string, k: nat, e: nat)
    requires k <= e <= |s|
    ensures s == s[..k] + s[k..e] + s[e..]
  {
  }

  lemma FoundCuts(s: string, p: string, k: nat)
    requires Find(s, p, 0) == Some(k)
    ensures s == s[..k] + p + s[k + |p|..]
  {
    FoundIsThere(s, p, 0);
    assert s[k..k + |p|] == p;
    CutsInThree(s, k, k + |p|);
  }

  lemma ReplaceAllCut(s: string, p: string, w: string, x: string, y: string)
    requires p != "" && s == x + p + y && Find(s, p, 0) == Some(|x|)
    ensures ReplaceAll(s, p, w) == x + w + ReplaceAll(y, p, w)
  {
    assert s[..|x|] == x;
    assert s[|x| + |p|..] == y;
  }

  lemma Regroup(a: string, x: string, w: string, y: string)
    ensures (a + x) + w + y == a + (x + w + y)
    ensures (x + w + y) + a == x + w + (y + a)
  {
  }

  lemma ReplaceAllBehind(a: string, b: string, p: string, w: string, x: string, y: string)
    requires p != "" && CleanSeam(a, b, p) && Find(a, p, 0).None? && Find(b, p, 0) == Some(|x|) && b == x + p + y
    ensures ReplaceAll(a + b, p, w) == a + ReplaceAll(b, p, w)
  {
    FindBehind(a, b, p, |x|);
    assert |a + x| == |a| + |x|;
    Regroup(a, x, p, y);
    ReplaceAllCut(a + b, p, w, a + x, y);
    ReplaceAllCut(b, p, w, x, y);
    Regroup(a, x, w, ReplaceAll(y, p, w));
  }

  lemma ReplaceAllNone(a: string, b: string, p: string, w: string)
    requires p != "" && CleanSeam(a, b, p) && Find(a, p, 0).None?
    ensures ReplaceAll(a + b, p, w) == ReplaceAll(a, p, w) + ReplaceAll(b, p, w)
  {
    match Find(b, p, 0)
    case None => FindNeither(a, b, p);
    case Some(k) =>
      FoundCuts(b, p, k);
      ReplaceAllBehind(a, b, p, w, b[..k], b[k + |p|..]);
  }

  lemma CleanSeamFrom(x: string, y: string, b: string, p: string)
    requires CleanSeam(x + y, b, p)
    ensures CleanSeam(y, b, p)
  {
    assert (x + y) + b == x + (y + b);
    forall j | 0 <= j < |y| && At(y + b, p, j) ensures j + |p| <= |y| {
      AtBehind(x, y + b, p, j);
    }
  }

  /** Replacing every anchor acts on two adjoining texts separately when no anchor straddles the seam. */
  lemma {:induction false} ReplaceAllSplits(a: string, b: string, p: string, w: string)
    requires p != "" && CleanSeam(a, b, p)
    ensures ReplaceAll(a + b, p, w) == ReplaceAll(a, p, w) + ReplaceAll(b, p, w)
    decreases |a|
  {
    match Find(a, p, 0)
    case None => ReplaceAllNone(a, b, p, w);
    case Some(k) =>
      var x, y := a[..k], a[k + |p|..];
      FoundCuts(a, p, k);
      FindInFront(a, b, p, k);
      CleanSeamFrom(x + p, y, b, p);
      ReplaceAllSplits(y, b, p, w);
      Regroup(b, x, p, y);
      ReplaceAllCut(a + b, p, w, x, y + b);
      ReplaceAllCut(a, p, w, x, y);
      Regroup(ReplaceAll(b, p, w), x, w, ReplaceAll(y, p, w));
  }

  /** No anchor straddles the place where a text it is apart from begins. */
  lemma SeamAt(a: string, b: string, q: string, p: string)
    requires q != "" && p != "" && Apart(q, p) && At(b, q, 0)
    ensures CleanSeam(a, b, p)
  {
    AtBehind(a, b, q, 0);
    forall j | 0 <= j < |a| && At(a + b, p, j) ensures j + |p| <= |a| {
      ApartNeverOverlaps(a + b, q, |a|, p, j);
    }
  }

  /**
   So adding a disjunct at every anchor acts branch by branch: the text before a branch, the branch
   and the text from the next marker on are rewritten independently.
   */
  lemma ReplaceAllActsPerBranch(sql: string, header: string, marker: string, anchor: string, w: string)
    requires anchor != "" && header != "" && marker != "" && Apart(marker, anchor) && Apart(header, anchor)
    requires Region(sql, header, marker).Some?
    ensures var span := Region(sql, header, marker).value;
            ReplaceAll(sql, anchor, w)
            == ReplaceAll(sql[..span.start], anchor, w) + ReplaceAll(Branch(sql, header, marker), anchor, w)
               + ReplaceAll(sql[span.end..], anchor, w)
  {
    var span := Region(sql, header, marker).value;
    var a, b, c := sql[..span.start], sql[span.start..span.end], sql[span.end..];
    FoundIsThere(sql, header, 0);
    FoundIsThere(sql, marker, span.start);
    AtDrop(sql, header, span.start);
    AtDrop(sql, marker, span.end);
    RestIs(sql, span.start, span.end);
    ReplaceAllInThree(a, b, c, header, marker, anchor, w);
  }

  lemma AtDrop(s: string, p: string, i: nat)
    requires At(s, p, i)
    ensures At(s[i..], p, 0)
  {
  }

  lemma RestIs(s: string, k: nat, e: nat)
    requires k <= e <= |s|
    ensures s[k..] == s[k..e] + s[e..] && s == s[..k] + (s[k..e] + s[e..])
  {
    assert s[k..] == s[k..e] + s[e..];
    assert s == s[..k] + s[k..];
  }

  lemma ReplaceAllInThree(a: string, b: string, c: string, header: string, marker: string, anchor: string, w: string)
    requires anchor != "" && header != "" && marker != "" && Apart(marker, anchor) && Apart(header, anchor)
    requires At(b + c, header, 0) && At(c, marker, 0)
    ensures ReplaceAll(a + (b + c), anchor, w)
            == ReplaceAll(a, anchor, w) + ReplaceAll(b, anchor, w) + ReplaceAll(c, anchor, w)
  {
    SeamAt(a, b + c, header, anchor);
    SeamAt(b, c, marker, anchor);
    ReplaceAllSplits(a, b + c, anchor, w);
    ReplaceAllSplits(b, c, anchor, w);
  }
}
