/**
 JSON text as Python's `json.dumps` writes it and `json.loads` reads it: ASCII-only output with
 the escapes of section 7 of RFC 8259. Strings are sequences of code points, lone surrogates
 included, because Python strings may hold them.
 */
module JsonText {

  type CodePoint = c: int | 0 <= c < 0x11_0000
  type Str = seq<CodePoint>

  datatype Result<+T> = Ok(value: T) | Collision | TypeError

  predicate Digits(s: Str) {
    |s| > 0 && forall i :: 0 <= i < |s| ==> 48 <= s[i] <= 57
  }

  predicate IsInteger(s: Str) {
    var body := if |s| > 0 && s[0] == 45 then s[1..] else s;
    Digits(body) && (body == [48] || body[0] != 48)
  }

  predicate IsExponent(s: Str) {
    |s| > 1 && s[0] in {69, 101} && (Digits(s[1..]) || (s[1] in {43, 45} && Digits(s[2..])))
  }

  /** Characters of a number: digits, sign, point, exponent mark. */
  predicate NumberChar(c: CodePoint) {
    48 <= c <= 57 || c in {43, 45, 46, 69, 101}
  }

  predicate IsNumber(s: Str) {
    && |s| > 0 && (forall i :: 0 <= i < |s| ==> NumberChar(s[i]))
    && exists i, j :: 0 <= i <= j <= |s| && IsInteger(s[..i])
         && (i == j || (s[i] == 46 && Digits(s[i + 1..j])))
         && (j == |s| || IsExponent(s[j..]))
  }

  predicate Printable(s: Str) {
    forall i :: 0 <= i < |s| ==> 33 <= s[i] <= 126
  }

  /** A dictionary key: a string, another scalar (written as its text), or a tuple or something else `dumps` refuses. */
  datatype Key = StrKey(text: Str) | ScalarKey(scalar: Str) | TupleKey(parts: seq<Key>) | OpaqueKey(object: int)
  {
    predicate Writable() {
      StrKey? || ScalarKey?
    }
  }

  datatype Pair = Pair(key: Key, value: Value)

  /** A Python value; `Opaque` is anything `dumps` refuses, such as bytes. */
  datatype Value =
    | Null | Bool(b: bool) | Number(lexeme: Str) | String(s: Str)
    | List(items: seq<Value>) | Tuple(items: seq<Value>) | Dict(pairs: seq<Pair>) | Opaque(object: int)

  /* ---- Writing ---- */

  function Hex(n: int): CodePoint
    requires 0 <= n < 16
  {
    if n < 10 then 48 + n else 87 + n
  }

  /** Backslash, u, four hexadecimal digits. */
  function EscapeUnit(u: int): Str
    requires 0 <= u < 0x1_0000
  {
    [92, 117, Hex(u / 4096), Hex(u / 256 % 16), Hex(u / 16 % 16), Hex(u % 16)]
  }

  function EncodeChar(c: CodePoint): Str {
    if c == 34 then [92, 34]
    else if c == 92 then [92, 92]
    else if c == 10 then [92, 110]
    else if c == 13 then [92, 114]
    else if c == 9 then [92, 116]
    else if c == 12 then [92, 102]
    else if c == 8 then [92, 98]
    else if 32 <= c <= 126 then [c]
    else if c < 0x1_0000 then EscapeUnit(c)
    else EscapeUnit(0xD800 + (c - 0x1_0000) / 1024) + EscapeUnit(0xDC00 + (c - 0x1_0000) % 1024)
  }

  function EncodeChars(s: Str): Str {
    if s == [] then [] else EncodeChar(s[0]) + EncodeChars(s[1..])
  }

  function Quote(s: Str): Str {
    [34] + EncodeChars(s) + [34]
  }

  function KeyText(k: Key): Str
    requires k.Writable()
  {
    if k.StrKey? then k.text else k.scalar
  }

  predicate Encodable(v: Value) {
    match v
    case List(items) => forall i :: 0 <= i < |items| ==> Encodable(items[i])
    case Tuple(items) => forall i :: 0 <= i < |items| ==> Encodable(items[i])
    case Dict(pairs) => forall i :: 0 <= i < |pairs| ==> pairs[i].key.Writable() && Encodable(pairs[i].value)
    case Opaque(_) => false
    case _ => true
  }

  function Encode(v: Value): Str
    requires Encodable(v)
    decreases v, 1
  {
    match v
    case Null => [110, 117, 108, 108]
    case Bool(b) => if b then [116, 114, 117, 101] else [102, 97, 108, 115, 101]
    case Number(lexeme) => lexeme
    case String(s) => Quote(s)
    case List(items) => [91] + EncodeItems(items) + [93]
    case Tuple(items) => [91] + EncodeItems(items) + [93]
    case Dict(pairs) => [123] + EncodePairs(pairs) + [125]
  }

  function EncodeItems(items: seq<Value>): Str
    requires forall i :: 0 <= i < |items| ==> Encodable(items[i])
    decreases items, 0
  {
    if items == [] then []
    else if |items| == 1 then Encode(items[0])
    else Encode(items[0]) + [44, 32] + EncodeItems(items[1..])
  }

  function EncodePair(p: Pair): Str
    requires p.key.Writable() && Encodable(p.value)
    decreases p, 0
  {
    Quote(KeyText(p.key)) + [58, 32] + Encode(p.value)
  }

  function EncodePairs(pairs: seq<Pair>): Str
    requires forall i :: 0 <= i < |pairs| ==> pairs[i].key.Writable() && Encodable(pairs[i].value)
    decreases pairs, 0
  {
    if pairs == [] then []
    else if |pairs| == 1 then EncodePair(pairs[0])
    else EncodePair(pairs[0]) + [44, 32] + EncodePairs(pairs[1..])
  }

  /** `json.dumps`. */
  function Dumps(v: Value): Result<Str> {
    if Encodable(v) then Ok(Encode(v)) else TypeError
  }

  /* ---- Reading ---- */

  /** A parse: a value and what is left, always shorter than the input. */
  datatype Parsed<+T> = Bad | Done(value: T, rest: Str)

  function Unhex(c: CodePoint): int {
    if 48 <= c <= 57 then c - 48
    else if 97 <= c <= 102 then c - 87
    else if 65 <= c <= 70 then c - 55
    else -1
  }

  /** Four hexadecimal digits, or -1. */
  function ReadUnit(t: Str): (u: int)
    requires |t| >= 4
    ensures -1 <= u < 0x1_0000
  {
    var a, b, c, d := Unhex(t[0]), Unhex(t[1]), Unhex(t[2]), Unhex(t[3]);
    if a < 0 || b < 0 || c < 0 || d < 0 then -1 else 4096 * a + 256 * b + 16 * c + d
  }

  predicate High(u: int) { 0xD800 <= u <= 0xDBFF }
  predicate Low(u: int) { 0xDC00 <= u <= 0xDFFF }

  function Combine(high: int, low: int): CodePoint
    requires High(high) && Low(low)
  {
    0x1_0000 + (high - 0xD800) * 1024 + (low - 0xDC00)
  }

  function SimpleEscape(c: CodePoint): int {
    if c == 34 || c == 92 || c == 47 then c
    else if c == 98 then 8
    else if c == 102 then 12
    else if c == 110 then 10
    else if c == 114 then 13
    else if c == 116 then 9
    else -1
  }

  /** One character or escape of a string, after its opening quote. */
  function ReadChar(t: Str): (p: Parsed<CodePoint>)
    ensures p.Done? ==> |p.rest| < |t|
  {
    if t == [] || t[0] == 34 || t[0] < 32 then Bad
    else if t[0] != 92 then Done(t[0], t[1..])
    else if |t| < 2 then Bad
    else if t[1] != 117 then
      if SimpleEscape(t[1]) < 0 then Bad else Done(SimpleEscape(t[1]), t[2..])
    else if |t| < 6 || ReadUnit(t[2..]) < 0 then Bad
    else
      var u := ReadUnit(t[2..]);
      if High(u) && |t| >= 12 && t[6] == 92 && t[7] == 117 then
        var w := ReadUnit(t[8..]);
        if w < 0 then Bad else if Low(w) then Done(Combine(u, w), t[12..]) else Done(u, t[6..])
      else Done(u, t[6..])
  }

  /** The rest of a string up to its closing quote. */
  function ReadChars(t: Str): (p: Parsed<Str>)
    ensures p.Done? ==> |p.rest| < |t|
    decreases |t|
  {
    if t != [] && t[0] == 34 then Done([], t[1..])
    else
      match ReadChar(t)
      case Bad => Bad
      case Done(c, rest) =>
        match ReadChars(rest)
        case Bad => Bad
        case Done(s, rest') => Done([c] + s, rest')
  }

  function SkipSpace(t: Str): (r: Str)
    ensures |r| <= |t|
  {
    if t != [] && t[0] in {32, 9, 10, 13} then SkipSpace(t[1..]) else t
  }

  function NumberPrefix(t: Str): nat {
    if t != [] && NumberChar(t[0]) then 1 + NumberPrefix(t[1..]) else 0
  }

  lemma NumberPrefixFits(t: Str)
    ensures NumberPrefix(t) <= |t|
  {
  }

  predicate StartsWith(t: Str, p: Str) {
    |p| <= |t| && t[..|p|] == p
  }

  function ReadNumber(t: Str): (p: Parsed<Value>)
    ensures p.Done? ==> |p.rest| < |t|
  {
    NumberPrefixFits(t);
    var n := NumberPrefix(t);
    if n > 0 && IsNumber(t[..n]) then Done(Number(t[..n]), t[n..]) else Bad
  }

  function ReadValue(t: Str): (p: Parsed<Value>)
    ensures p.Done? ==> |p.rest| < |t|
    decreases |t|, 3
  {
    if t == [] then Bad
    else if t[0] == 34 then
      match ReadChars(t[1..]) { case Bad => Bad case Done(s, rest) => Done(String(s), rest) }
    else if t[0] == 91 then
      var inner := SkipSpace(t[1..]);
      if inner != [] && inner[0] == 93 then Done(List([]), inner[1..])
      else match ReadItems(inner) { case Bad => Bad case Done(items, rest) => Done(List(items), rest) }
    else if t[0] == 123 then
      var inner := SkipSpace(t[1..]);
      if inner != [] && inner[0] == 125 then Done(Dict([]), inner[1..])
      else match ReadPairs(inner) { case Bad => Bad case Done(pairs, rest) => Done(Dict(DictOf(pairs)), rest) }
    else if StartsWith(t, [110, 117, 108, 108]) then Done(Null, t[4..])
    else if StartsWith(t, [116, 114, 117, 101]) then Done(Bool(true), t[4..])
    else if StartsWith(t, [102, 97, 108, 115, 101]) then Done(Bool(false), t[5..])
    else ReadNumber(t)
  }

  /** Items up to and including the closing bracket. */
  function ReadItems(t: Str): (p: Parsed<seq<Value>>)
    ensures p.Done? ==> |p.rest| < |t|
    decreases |t|, 4
  {
    match ReadValue(t)
    case Bad => Bad
    case Done(v, rest) =>
      var after := SkipSpace(rest);
      if after == [] then Bad
      else if after[0] == 93 then Done([v], after[1..])
      else if after[0] != 44 then Bad
      else
        match ReadItems(SkipSpace(after[1..]))
        case Bad => Bad
        case Done(vs, rest') => Done([v] + vs, rest')
  }

  function ReadPair(t: Str): (p: Parsed<Pair>)
    ensures p.Done? ==> |p.rest| < |t|
    decreases |t|, 4
  {
    if t == [] || t[0] != 34 then Bad
    else
      match ReadChars(t[1..])
      case Bad => Bad
      case Done(k, rest) =>
        var after := SkipSpace(rest);
        if after == [] || after[0] != 58 then Bad
        else
          match ReadValue(SkipSpace(after[1..]))
          case Bad => Bad
          case Done(v, rest') => Done(Pair(StrKey(k), v), rest')
  }

  /** Pairs up to and including the closing brace. */
  function ReadPairs(t: Str): (p: Parsed<seq<Pair>>)
    ensures p.Done? ==> |p.rest| < |t|
    decreases |t|, 5
  {
    match ReadPair(t)
    case Bad => Bad
    case Done(v, rest) =>
      var after := SkipSpace(rest);
      if after == [] then Bad
      else if after[0] == 125 then Done([v], after[1..])
      else if after[0] != 44 then Bad
      else
        match ReadPairs(SkipSpace(after[1..]))
        case Bad => Bad
        case Done(vs, rest') => Done([v] + vs, rest')
  }

  /** A dictionary built from pairs: a repeated key keeps its place and takes the last value. */
  function DictOf(pairs: seq<Pair>): seq<Pair> {
    if pairs == [] then [] else Put(DictOf(pairs[..|pairs| - 1]), pairs[|pairs| - 1])
  }

  function Put(pairs: seq<Pair>, p: Pair): seq<Pair> {
    if pairs == [] then [p]
    else if pairs[0].key == p.key then [p] + pairs[1..]
    else [pairs[0]] + Put(pairs[1..], p)
  }

  datatype Loaded = Malformed | Loaded(value: Value)

  /** `json.loads`. */
  function Loads(t: Str): Loaded {
    match ReadValue(SkipSpace(t))
    case Bad => Malformed
    case Done(v, rest) => if SkipSpace(rest) == [] then Loaded(v) else Malformed
  }

  /* ---- Reading back what was written ---- */

  /** What a string becomes in a round trip: an adjacent surrogate pair is read as one character. */
  function Merge(s: Str): Str {
    if s == [] then []
    else if |s| >= 2 && High(s[0]) && Low(s[1]) then [Combine(s[0], s[1])] + Merge(s[2..])
    else [s[0]] + Merge(s[1..])
  }

  /** What a value becomes in a round trip: tuples become lists, keys become strings. */
  function ReadBack(v: Value): Value
    requires Encodable(v)
    decreases v, 1
  {
    match v
    case String(s) => String(Merge(s))
    case List(items) => List(ReadBackItems(items))
    case Tuple(items) => List(ReadBackItems(items))
    case Dict(pairs) => Dict(DictOf(ReadBackPairs(pairs)))
    case _ => v
  }

  function ReadBackItems(items: seq<Value>): seq<Value>
    requires forall i :: 0 <= i < |items| ==> Encodable(items[i])
    decreases items, 0
  {
    if items == [] then [] else [ReadBack(items[0])] + ReadBackItems(items[1..])
  }

  function ReadBackPair(p: Pair): Pair
    requires p.key.Writable() && Encodable(p.value)
    decreases p, 0
  {
    Pair(StrKey(Merge(KeyText(p.key))), ReadBack(p.value))
  }

  function ReadBackPairs(pairs: seq<Pair>): seq<Pair>
    requires forall i :: 0 <= i < |pairs| ==> pairs[i].key.Writable() && Encodable(pairs[i].value)
    decreases pairs, 0
  {
    if pairs == [] then [] else [ReadBackPair(pairs[0])] + ReadBackPairs(pairs[1..])
  }

  lemma HexDigits(u: int)
    requires 0 <= u < 0x1_0000
    ensures 4096 * (u / 4096) + 256 * (u / 256 % 16) + 16 * (u / 16 % 16) + u % 16 == u
  {
    var a := u / 16;
    var b := a / 16;
    assert u == 16 * a + u % 16 && a == 16 * b + a % 16 && b == 16 * (b / 16) + b % 16;
    assert u / 256 == b && u / 4096 == b / 16;
  }

  lemma UnitRoundTrip(u: int, t: Str)
    requires 0 <= u < 0x1_0000 && |t| >= 4 && t[..4] == EscapeUnit(u)[2..]
    ensures ReadUnit(t) == u
  {
    HexDigits(u);
    assert t[0] == t[..4][0] && t[1] == t[..4][1] && t[2] == t[..4][2] && t[3] == t[..4][3];
    assert forall n :: 0 <= n < 16 ==> Unhex(Hex(n)) == n;
  }

  /** Reading an escaped unit gives it back, unless it starts a surrogate pair. */
  lemma EscapeRoundTrip(u: int, rest: Str)
    requires 0 <= u < 0x1_0000
    requires High(u) ==> !(|rest| >= 6 && rest[0] == 92 && rest[1] == 117)
    ensures ReadChar(EscapeUnit(u) + rest) == Done(u, rest)
  {
    var t := EscapeUnit(u) + rest;
    assert t[2..][..4] == EscapeUnit(u)[2..];
    UnitRoundTrip(u, t[2..]);
    assert t[6..] == rest;
    if |t| >= 12 { assert t[6] == rest[0] && t[7] == rest[1]; }
  }

  /** Two escaped units in a row: a surrogate pair is combined, anything else after a high one is left. */
  lemma TwoUnitsRoundTrip(h: int, l: int, rest: Str)
    requires High(h) && 0 <= l < 0x1_0000
    ensures ReadChar(EscapeUnit(h) + (EscapeUnit(l) + rest))
         == if Low(l) then Done(Combine(h, l), rest) else Done(h, EscapeUnit(l) + rest)
  {
    var after := EscapeUnit(l) + rest;
    var t := EscapeUnit(h) + after;
    assert t[2..][..4] == EscapeUnit(h)[2..];
    UnitRoundTrip(h, t[2..]);
    assert t[6..] == after && t[6] == after[0] && t[7] == after[1];
    assert t[8..][..4] == EscapeUnit(l)[2..];
    UnitRoundTrip(l, t[8..]);
    assert t[12..] == rest;
  }

  predicate Escaped(c: CodePoint) {
    !(32 <= c <= 126) && c !in {8, 9, 10, 12, 13} && c < 0x1_0000
  }

  lemma ShortRoundTrip(c: CodePoint, rest: Str)
    requires !Escaped(c) && c < 0x1_0000
    ensures ReadChar(EncodeChar(c) + rest) == Done(c, rest)
  {
    var t := EncodeChar(c) + rest;
    if |EncodeChar(c)| == 2 {
      assert t[0] == 92 && t[1] == EncodeChar(c)[1];
      assert t[2..] == rest;
    } else {
      assert t[0] == c;
      assert t[1..] == rest;
    }
  }

  lemma HalvesCombine(c: CodePoint, h: int, l: int)
    requires c >= 0x1_0000 && h == 0xD800 + (c - 0x1_0000) / 1024 && l == 0xDC00 + (c - 0x1_0000) % 1024
    ensures High(h) && Low(l) && Combine(h, l) == c
  {
  }

  lemma AppendInTwo(a: Str, b: Str, rest: Str)
    ensures a + b + rest == a + (b + rest)
  {
  }

  lemma HalvesRoundTrip(h: int, l: int, rest: Str)
    requires High(h) && Low(l)
    ensures ReadChar(EscapeUnit(h) + EscapeUnit(l) + rest) == Done(Combine(h, l), rest)
  {
    AppendInTwo(EscapeUnit(h), EscapeUnit(l), rest);
    TwoUnitsRoundTrip(h, l, rest);
  }

  lemma EncodesAsHalves(c: CodePoint, h: int, l: int)
    requires c >= 0x1_0000 && h == 0xD800 + (c - 0x1_0000) / 1024 && l == 0xDC00 + (c - 0x1_0000) % 1024
    ensures EncodeChar(c) == EscapeUnit(h) + EscapeUnit(l)
  {
  }

  lemma AstralRoundTrip(c: CodePoint, rest: Str)
    requires c >= 0x1_0000
    ensures ReadChar(EncodeChar(c) + rest) == Done(c, rest)
  {
    var h, l := 0xD800 + (c - 0x1_0000) / 1024, 0xDC00 + (c - 0x1_0000) % 1024;
    HalvesCombine(c, h, l);
    EncodesAsHalves(c, h, l);
    HalvesRoundTrip(h, l, rest);
  }

  /** Reading one written character gives it back, unless it starts a surrogate pair of its own. */
  lemma CharRoundTrip(c: CodePoint, rest: Str)
    requires High(c) ==> !(|rest| >= 6 && rest[0] == 92 && rest[1] == 117)
    ensures ReadChar(EncodeChar(c) + rest) == Done(c, rest)
  {
    if c >= 0x1_0000 {
      AstralRoundTrip(c, rest);
    } else if Escaped(c) {
      assert EncodeChar(c) == EscapeUnit(c);
      EscapeRoundTrip(c, rest);
    } else {
      ShortRoundTrip(c, rest);
    }
  }

  /** A lone high surrogate before a unit that is not a low one stays alone. */
  lemma LoneHighRoundTrip(h: CodePoint, next: CodePoint, rest: Str)
    requires High(h) && !Low(next)
    ensures ReadChar(EncodeChar(h) + (EncodeChar(next) + rest)) == Done(h, EncodeChar(next) + rest)
  {
    var after := EncodeChar(next) + rest;
    assert EncodeChar(h) == EscapeUnit(h);
    if next >= 0x1_0000 {
      var u, l := 0xD800 + (next - 0x1_0000) / 1024, 0xDC00 + (next - 0x1_0000) % 1024;
      assert after == EscapeUnit(u) + (EscapeUnit(l) + rest);
      TwoUnitsRoundTrip(h, u, EscapeUnit(l) + rest);
    } else if Escaped(next) {
      assert EncodeChar(next) == EscapeUnit(next);
      TwoUnitsRoundTrip(h, next, rest);
    } else {
      assert after[0] == EncodeChar(next)[0];
      if |EncodeChar(next)| == 2 { assert after[1] == EncodeChar(next)[1]; }
      EscapeRoundTrip(h, after);
    }
  }

  lemma ReadCharsStep(t: Str)
    requires ReadChar(t).Done? && ReadChars(ReadChar(t).rest).Done?
    ensures ReadChars(t) == Done([ReadChar(t).value] + ReadChars(ReadChar(t).rest).value,
                                 ReadChars(ReadChar(t).rest).rest)
  {
  }

  function Quoted(s: Str, rest: Str): Str {
    EncodeChars(s) + [34] + rest
  }

  lemma QuotedSplit(s: Str, rest: Str)
    requires s != []
    ensures Quoted(s, rest) == EncodeChar(s[0]) + Quoted(s[1..], rest)
  {
  }

  lemma {:induction false} StringRoundTrip(s: Str, rest: Str)
    ensures ReadChars(Quoted(s, rest)) == Done(Merge(s), rest)
    decreases |s|
  {
    var t := Quoted(s, rest);
    if s == [] {
      assert t == [34] + rest;
      assert t[1..] == rest;
    } else {
      QuotedSplit(s, rest);
      if |s| >= 2 { QuotedSplit(s[1..], rest); }
      if |s| >= 2 && High(s[0]) && Low(s[1]) {
        assert s[1..][1..] == s[2..];
        assert EncodeChar(s[0]) == EscapeUnit(s[0]) && EncodeChar(s[1]) == EscapeUnit(s[1]);
        TwoUnitsRoundTrip(s[0], s[1], Quoted(s[2..], rest));
        StringRoundTrip(s[2..], rest);
      } else {
        if |s| >= 2 && High(s[0]) {
          LoneHighRoundTrip(s[0], s[1], Quoted(s[1..][1..], rest));
        } else {
          if |s| == 1 { assert Quoted(s[1..], rest) == [34] + rest; }
          CharRoundTrip(s[0], Quoted(s[1..], rest));
        }
        StringRoundTrip(s[1..], rest);
      }
      ReadCharsStep(t);
    }
  }

  lemma QuoteIsQuoted(s: Str, rest: Str)
    ensures Quote(s) + rest == [34] + Quoted(s, rest)
  {
  }

  lemma QuoteRoundTrip(s: Str, rest: Str)
    ensures (Quote(s) + rest)[0] == 34
    ensures ReadChars((Quote(s) + rest)[1..]) == Done(Merge(s), rest)
  {
    QuoteIsQuoted(s, rest);
    var t := [34] + Quoted(s, rest);
    assert t[0] == 34 && t[1..] == Quoted(s, rest);
    StringRoundTrip(s, rest);
  }

  /** Numbers in the value are JSON numbers, scalar keys are plain text, and keys of a dictionary are distinct. */
  predicate WellFormed(v: Value) {
    match v
    case Number(lexeme) => IsNumber(lexeme)
    case List(items) => forall i :: 0 <= i < |items| ==> WellFormed(items[i])
    case Tuple(items) => forall i :: 0 <= i < |items| ==> WellFormed(items[i])
    case Dict(pairs) =>
      (forall i :: 0 <= i < |pairs| ==>
         WellFormed(pairs[i].value) && (pairs[i].key.ScalarKey? ==> Printable(pairs[i].key.scalar)))
      && forall i, j :: 0 <= i < j < |pairs| ==> pairs[i].key != pairs[j].key
    case _ => true
  }

  /** What may follow a value inside a text that `dumps` wrote. */
  predicate Follows(rest: Str) {
    rest == [] || rest[0] in {44, 93, 125}
  }

  lemma NumberRoundTrip(lexeme: Str, rest: Str)
    requires (forall i :: 0 <= i < |lexeme| ==> NumberChar(lexeme[i])) && Follows(rest)
    ensures NumberPrefix(lexeme + rest) == |lexeme|
  {
    if lexeme == [] {
      assert lexeme + rest == rest;
    } else {
      assert (lexeme + rest)[1..] == lexeme[1..] + rest;
      NumberRoundTrip(lexeme[1..], rest);
    }
  }

  lemma NoLeadingSpace(t: Str)
    requires t == [] || t[0] !in {32, 9, 10, 13}
    ensures SkipSpace(t) == t
  {
  }

  lemma OneSpace(t: Str)
    requires t == [] || t[0] !in {32, 9, 10, 13}
    ensures SkipSpace([32] + t) == t
  {
    assert ([32] + t)[1..] == t;
    NoLeadingSpace(t);
  }

  /** No written value is empty, starts with a space, or looks like a closing bracket. */
  lemma EncodedStart(v: Value, rest: Str)
    requires Encodable(v) && WellFormed(v)
    ensures |Encode(v)| > 0
    ensures (Encode(v) + rest)[0] == Encode(v)[0] && Encode(v)[0] !in {32, 9, 10, 13, 93, 125}
  {
  }

  lemma ReadNumberRoundTrip(lexeme: Str, rest: Str)
    requires IsNumber(lexeme) && Follows(rest)
    ensures ReadNumber(lexeme + rest) == Done(Number(lexeme), rest)
  {
    var t := lexeme + rest;
    NumberRoundTrip(lexeme, rest);
    assert t[..|lexeme|] == lexeme && t[|lexeme|..] == rest;
  }

  lemma NumberValueRoundTrip(lexeme: Str, rest: Str)
    requires IsNumber(lexeme) && Follows(rest)
    ensures ReadValue(lexeme + rest) == Done(Number(lexeme), rest)
  {
    var t := lexeme + rest;
    ReadNumberRoundTrip(lexeme, rest);
    assert NumberChar(lexeme[0]) && t[0] == lexeme[0];
    ReadValueOfNumber(t);
  }

  lemma OtherStart(t: Str, word: Str)
    requires t != [] && word != [] && t[0] != word[0]
    ensures !StartsWith(t, word)
  {
    assert |word| <= |t| ==> t[..|word|][0] == t[0];
  }

  lemma ReadValueOfNumber(t: Str)
    requires t != [] && NumberChar(t[0])
    ensures ReadValue(t) == ReadNumber(t)
  {
    OtherStart(t, [110, 117, 108, 108]);
    OtherStart(t, [116, 114, 117, 101]);
    OtherStart(t, [102, 97, 108, 115, 101]);
  }

  lemma StringValueRoundTrip(s: Str, rest: Str)
    ensures ReadValue(Quote(s) + rest) == Done(String(Merge(s)), rest)
  {
    QuoteRoundTrip(s, rest);
  }

  lemma WordRoundTrip(v: Value, rest: Str)
    requires v.Null? || v.Bool?
    ensures ReadValue(Encode(v) + rest) == Done(v, rest)
  {
    var t := Encode(v) + rest;
    assert t[|Encode(v)|..] == rest && t[..|Encode(v)|] == Encode(v);
  }

  lemma {:induction false} ValueRoundTrip(v: Value, rest: Str)
    requires Encodable(v) && WellFormed(v) && Follows(rest)
    ensures ReadValue(Encode(v) + rest) == Done(ReadBack(v), rest)
    decreases v, 1
  {
    match v
    case List(items) => ListRoundTrip(items, rest);
    case Tuple(items) => ListRoundTrip(items, rest);
    case Dict(pairs) => DictRoundTrip(pairs, rest);
    case Number(lexeme) => NumberValueRoundTrip(lexeme, rest);
    case String(s) => StringValueRoundTrip(s, rest);
    case _ => WordRoundTrip(v, rest);
  }

  lemma ReadDictStep(t: Str, inner: Str, pairs: seq<Pair>, rest: Str)
    requires t != [] && t[0] == 123 && t[1..] == inner && SkipSpace(inner) == inner
    requires inner != [] && inner[0] != 125 && ReadPairs(inner) == Done(pairs, rest)
    ensures ReadValue(t) == Done(Dict(DictOf(pairs)), rest)
  {
  }

  lemma {:induction false} DictRoundTrip(pairs: seq<Pair>, rest: Str)
    requires forall i :: 0 <= i < |pairs| ==>
               pairs[i].key.Writable() && Encodable(pairs[i].value) && WellFormed(pairs[i].value)
    ensures ReadValue([123] + EncodePairs(pairs) + [125] + rest) == Done(Dict(DictOf(ReadBackPairs(pairs))), rest)
    decreases pairs, 1
  {
    var t := [123] + EncodePairs(pairs) + [125] + rest;
    Enclosed(123, EncodePairs(pairs), 125, rest);
    if pairs == [] {
      NothingEnclosed(125, rest);
      NoLeadingSpace(t[1..]);
    } else {
      PairsRoundTrip(pairs, rest);
      PairStart(pairs, rest);
      NoLeadingSpace(t[1..]);
      ReadDictStep(t, EncodePairs(pairs) + [125] + rest, ReadBackPairs(pairs), rest);
    }
  }

  lemma PairStart(pairs: seq<Pair>, rest: Str)
    requires pairs != []
    requires forall i :: 0 <= i < |pairs| ==> pairs[i].key.Writable() && Encodable(pairs[i].value)
    ensures (EncodePairs(pairs) + [125] + rest)[0] == 34
  {
    assert EncodePair(pairs[0])[0] == 34;
  }

  lemma {:induction false} ListRoundTrip(items: seq<Value>, rest: Str)
    requires forall i :: 0 <= i < |items| ==> Encodable(items[i]) && WellFormed(items[i])
    ensures ReadValue([91] + EncodeItems(items) + [93] + rest) == Done(List(ReadBackItems(items)), rest)
    decreases items, 1
  {
    var t := [91] + EncodeItems(items) + [93] + rest;
    Enclosed(91, EncodeItems(items), 93, rest);
    if items == [] {
      NothingEnclosed(93, rest);
      NoLeadingSpace(t[1..]);
    } else {
      ItemsRoundTrip(items, rest);
      ItemsStart(items, rest);
      NoLeadingSpace(t[1..]);
      ReadListStep(t, EncodeItems(items) + [93] + rest, ReadBackItems(items), rest);
    }
  }

  lemma ItemsStart(items: seq<Value>, rest: Str)
    requires items != []
    requires forall i :: 0 <= i < |items| ==> Encodable(items[i]) && WellFormed(items[i])
    ensures var t := EncodeItems(items) + [93] + rest; t != [] && t[0] !in {32, 9, 10, 13, 93}
  {
    EncodedStart(items[0], []);
    if |items| > 1 { assert EncodeItems(items)[0] == Encode(items[0])[0]; }
  }

  lemma ReadListStep(t: Str, inner: Str, items: seq<Value>, rest: Str)
    requires t != [] && t[0] == 91 && t[1..] == inner && SkipSpace(inner) == inner
    requires inner != [] && inner[0] != 93 && ReadItems(inner) == Done(items, rest)
    ensures ReadValue(t) == Done(List(items), rest)
  {
  }

  lemma Enclosed(left: CodePoint, inner: Str, right: CodePoint, rest: Str)
    ensures var t := [left] + inner + [right] + rest; t != [] && t[0] == left && t[1..] == inner + [right] + rest
  {
    assert [left] + inner + [right] + rest == [left] + (inner + [right] + rest);
  }

  lemma NothingEnclosed(right: CodePoint, rest: Str)
    ensures [] + [right] + rest == [right] + rest && ([right] + rest)[1..] == rest
  {
  }

  lemma Reassociate(a: Str, b: Str, c: Str, d: Str)
    ensures a + [44, 32] + b + c + d == a + ([44] + ([32] + (b + c + d)))
  {
    var separator := [44, 32];
    assert separator + (b + c + d) == [44] + ([32] + (b + c + d));
  }

  lemma ReadItemsStep(t: Str, v: Value, tail: Str)
    requires ReadValue(t) == Done(v, [44] + ([32] + tail))
    requires tail != [] && tail[0] !in {32, 9, 10, 13} && ReadItems(tail).Done?
    ensures ReadItems(t) == Done([v] + ReadItems(tail).value, ReadItems(tail).rest)
  {
    var after := [44] + ([32] + tail);
    NoLeadingSpace(after);
    assert after[1..] == [32] + tail;
    OneSpace(tail);
  }

  lemma {:induction false} ItemsRoundTrip(items: seq<Value>, rest: Str)
    requires items != [] && forall i :: 0 <= i < |items| ==> Encodable(items[i]) && WellFormed(items[i])
    ensures ReadItems(EncodeItems(items) + [93] + rest) == Done(ReadBackItems(items), rest)
    decreases items, 0
  {
    var t := EncodeItems(items) + [93] + rest;
    if |items| == 1 {
      assert t == Encode(items[0]) + ([93] + rest);
      ValueRoundTrip(items[0], [93] + rest);
      NoLeadingSpace([93] + rest);
      assert ([93] + rest)[1..] == rest;
      assert ReadBackItems(items) == [ReadBack(items[0])];
    } else {
      var tail := EncodeItems(items[1..]) + [93] + rest;
      var after := [44] + ([32] + tail);
      Reassociate(Encode(items[0]), EncodeItems(items[1..]), [93], rest);
      assert t == Encode(items[0]) + after;
      ValueRoundTrip(items[0], after);
      EncodedStart(items[1], []);
      assert tail[0] == Encode(items[1])[0];
      ItemsRoundTrip(items[1..], rest);
      ReadItemsStep(t, ReadBack(items[0]), tail);
    }
  }

  lemma ReadPairStep(t: Str, k: Str, text: Str, v: Value, rest: Str)
    requires t != [] && t[0] == 34 && ReadChars(t[1..]) == Done(k, [58] + ([32] + text))
    requires (text == [] || text[0] !in {32, 9, 10, 13}) && ReadValue(text) == Done(v, rest)
    ensures ReadPair(t) == Done(Pair(StrKey(k), v), rest)
  {
    var after := [58] + ([32] + text);
    NoLeadingSpace(after);
    assert after[1..] == [32] + text;
    OneSpace(text);
  }

  lemma PairText(key: Str, value: Str, rest: Str)
    ensures key + [58, 32] + value + rest == key + ([58] + ([32] + (value + rest)))
  {
  }

  lemma {:induction false} OnePairRoundTrip(p: Pair, rest: Str)
    requires p.key.Writable() && Encodable(p.value) && WellFormed(p.value) && Follows(rest)
    ensures ReadPair(EncodePair(p) + rest)
         == Done(ReadBackPair(p), rest)
    decreases p, 0
  {
    var text := Encode(p.value) + rest;
    var after := [58] + ([32] + text);
    var t := EncodePair(p) + rest;
    PairText(Quote(KeyText(p.key)), Encode(p.value), rest);
    QuoteRoundTrip(KeyText(p.key), after);
    EncodedStart(p.value, rest);
    ValueRoundTrip(p.value, rest);
    ReadPairStep(t, Merge(KeyText(p.key)), text, ReadBack(p.value), rest);
  }

  lemma ReadPairsStep(t: Str, v: Pair, tail: Str)
    requires ReadPair(t) == Done(v, [44] + ([32] + tail))
    requires tail != [] && tail[0] !in {32, 9, 10, 13} && ReadPairs(tail).Done?
    ensures ReadPairs(t) == Done([v] + ReadPairs(tail).value, ReadPairs(tail).rest)
  {
    var after := [44] + ([32] + tail);
    NoLeadingSpace(after);
    assert after[1..] == [32] + tail;
    OneSpace(tail);
  }

  predicate PairsReady(pairs: seq<Pair>) {
    forall i :: 0 <= i < |pairs| ==>
      pairs[i].key.Writable() && Encodable(pairs[i].value) && WellFormed(pairs[i].value)
  }

  lemma PairsSplit(pairs: seq<Pair>, rest: Str)
    requires |pairs| >= 2 && PairsReady(pairs)
    ensures EncodePairs(pairs) + [125] + rest
         == EncodePair(pairs[0]) + ([44] + ([32] + (EncodePairs(pairs[1..]) + [125] + rest)))
  {
    Reassociate(EncodePair(pairs[0]), EncodePairs(pairs[1..]), [125], rest);
  }

  lemma LastPairRoundTrip(pairs: seq<Pair>, rest: Str)
    requires |pairs| == 1 && PairsReady(pairs)
    requires ReadPair(EncodePair(pairs[0]) + ([125] + rest)) == Done(ReadBackPair(pairs[0]), [125] + rest)
    ensures ReadPairs(EncodePairs(pairs) + [125] + rest) == Done([ReadBackPair(pairs[0])], rest)
  {
    assert EncodePairs(pairs) + [125] + rest == EncodePair(pairs[0]) + ([125] + rest);
    NoLeadingSpace([125] + rest);
    assert ([125] + rest)[1..] == rest;
  }

  lemma {:induction false} PairsRoundTrip(pairs: seq<Pair>, rest: Str)
    requires pairs != [] && PairsReady(pairs)
    ensures ReadPairs(EncodePairs(pairs) + [125] + rest) == Done(ReadBackPairs(pairs), rest)
    decreases pairs, 0
  {
    if |pairs| == 1 {
      OnePairRoundTrip(pairs[0], [125] + rest);
      LastPairRoundTrip(pairs, rest);
      assert ReadBackPairs(pairs) == [ReadBackPair(pairs[0])];
    } else {
      var tail := EncodePairs(pairs[1..]) + [125] + rest;
      PairsSplit(pairs, rest);
      OnePairRoundTrip(pairs[0], [44] + ([32] + tail));
      PairStart(pairs[1..], rest);
      PairsRoundTrip(pairs[1..], rest);
      ReadPairsStep(EncodePairs(pairs) + [125] + rest, ReadBackPair(pairs[0]), tail);
    }
  }

  /** `loads(dumps(v))` is `v`, up to tuples, key types and split surrogate pairs. */
  lemma LoadsUndoesDumps(v: Value)
    requires Encodable(v) && WellFormed(v)
    ensures Loads(Encode(v)) == Loaded(ReadBack(v))
  {
    ValueRoundTrip(v, []);
    EncodedStart(v, []);
    NoLeadingSpace(Encode(v));
    assert Encode(v) + [] == Encode(v);
  }

  /* ---- What is written, character by character ---- */

  predicate LowerHexDigit(c: CodePoint) {
    48 <= c <= 57 || 97 <= c <= 102
  }

  /** Backslash, u and the four lower-case hexadecimal digits of `u`. */
  predicate EscapeOf(t: Str, u: int) {
    && |t| == 6 && t[0] == 92 && t[1] == 117
    && LowerHexDigit(t[2]) && LowerHexDigit(t[3]) && LowerHexDigit(t[4]) && LowerHexDigit(t[5])
    && u == ((Unhex(t[2]) * 16 + Unhex(t[3])) * 16 + Unhex(t[4])) * 16 + Unhex(t[5])
  }

  /** How each character stands in a quoted text: itself, a short escape, its escape, or those of its two surrogates. */
  lemma CharacterExactly(c: CodePoint)
    ensures var t := EncodeChar(c);
            match c
            case 34 => t == [92, 34]
            case 92 => t == [92, 92]
            case 10 => t == [92, 110]
            case 13 => t == [92, 114]
            case 9 => t == [92, 116]
            case 12 => t == [92, 102]
            case 8 => t == [92, 98]
            case _ =>
              if 32 <= c <= 126 then t == [c]
              else if c <= 0xFFFF then EscapeOf(t, c)
              else
                |t| == 12
                && exists high, low :: High(high) && Low(low) && Combine(high, low) == c
                                       && EscapeOf(t[..6], high) && EscapeOf(t[6..], low)
  {
    if 0 <= c < 0x1_0000 {
      EscapeIsExact(c);
    } else {
      SurrogatesAreExact(c);
    }
  }

  /** The two surrogates of a character above the basic plane. */
  lemma SurrogatesAreExact(c: CodePoint)
    requires c >= 0x1_0000
    ensures |EncodeChar(c)| == 12
    ensures exists high, low :: High(high) && Low(low) && Combine(high, low) == c
                                && EscapeOf(EncodeChar(c)[..6], high) && EscapeOf(EncodeChar(c)[6..], low)
  {
    var high, low := 0xD800 + (c - 0x1_0000) / 1024, 0xDC00 + (c - 0x1_0000) % 1024;
    EscapeIsExact(high);
    EscapeIsExact(low);
    assert EncodeChar(c)[..6] == EscapeUnit(high) && EncodeChar(c)[6..] == EscapeUnit(low);
    assert High(high) && Low(low) && Combine(high, low) == c;
  }

  lemma EscapeIsExact(u: int)
    requires 0 <= u < 0x1_0000
    ensures EscapeOf(EscapeUnit(u), u)
  {
    HexDigits(u);
  }

  /** Only printable ASCII characters. */
  predicate Ascii(t: Str) {
    forall i :: 0 <= i < |t| ==> 32 <= t[i] <= 126
  }

  lemma AsciiJoins(a: Str, b: Str)
    requires Ascii(a) && Ascii(b)
    ensures Ascii(a + b)
  {
  }

  lemma {:induction false} CharsAreAscii(s: Str)
    ensures Ascii(EncodeChars(s))
  {
    if s != [] {
      CharsAreAscii(s[1..]);
      AsciiJoins(EncodeChar(s[0]), EncodeChars(s[1..]));
    }
  }

  lemma QuoteIsAscii(s: Str)
    ensures Ascii(Quote(s))
  {
    CharsAreAscii(s);
  }

  /** Whatever the value holds, its encoding is printable ASCII. */
  lemma {:induction false} EncodingIsAscii(v: Value)
    requires Encodable(v) && WellFormed(v)
    ensures Ascii(Encode(v))
    decreases v, 1
  {
    match v
    case String(s) => QuoteIsAscii(s);
    case List(items) => ItemsAreAscii(items);
    case Tuple(items) => ItemsAreAscii(items);
    case Dict(pairs) => PairsAreAscii(pairs);
    case _ =>
  }

  lemma {:induction false} ItemsAreAscii(items: seq<Value>)
    requires forall i :: 0 <= i < |items| ==> Encodable(items[i]) && WellFormed(items[i])
    ensures Ascii(EncodeItems(items))
    decreases items, 0
  {
    if items != [] {
      EncodingIsAscii(items[0]);
      if |items| > 1 {
        ItemsAreAscii(items[1..]);
        AsciiJoins(Encode(items[0]) + [44, 32], EncodeItems(items[1..]));
      }
    }
  }

  lemma {:induction false} PairIsAscii(p: Pair)
    requires p.key.Writable() && Encodable(p.value) && WellFormed(p.value)
    ensures Ascii(EncodePair(p))
    decreases p, 0
  {
    QuoteIsAscii(KeyText(p.key));
    EncodingIsAscii(p.value);
    AsciiJoins(Quote(KeyText(p.key)) + [58, 32], Encode(p.value));
  }

  lemma {:induction false} PairsAreAscii(pairs: seq<Pair>)
    requires PairsReady(pairs)
    ensures Ascii(EncodePairs(pairs))
    decreases pairs, 0
  {
    if pairs != [] {
      PairIsAscii(pairs[0]);
      if |pairs| > 1 {
        PairsAreAscii(pairs[1..]);
        AsciiJoins(EncodePair(pairs[0]) + [44, 32], EncodePairs(pairs[1..]));
      }
    }
  }
}
