/** Canonical JSON: what the stable rendering forgets (key order) and what it keeps (everything else),
    and what an equal plan hash therefore means. */
module CanonicalJson {
  import opened Common
  import B = Base64

  /** JavaScript strings are sequences of UTF-16 code units. */
  type CodeUnit = x: int | 0 <= x < 0x1_0000
  type Text = seq<CodeUnit>

  /** A JSON value. A number is its rendered literal; an object is its members in insertion order. */
  datatype Json =
    | Null | Bool(flag: bool) | Number(literal: Text) | String(text: Text)
    | Array(items: seq<Json>) | Object(members: seq<Member>)
  datatype Member = Member(key: Text, value: Json)

  const QUOTE: CodeUnit := '"' as int
  const BACKSLASH: CodeUnit := '\\' as int
  const COMMA: CodeUnit := ',' as int
  const COLON: CodeUnit := ':' as int
  const OPEN_LIST: CodeUnit := '[' as int
  const CLOSE_LIST: CodeUnit := ']' as int
  const OPEN_OBJECT: CodeUnit := '{' as int
  const CLOSE_OBJECT: CodeUnit := '}' as int
  const LETTER_U: CodeUnit := 'u' as int
  const NULL_TEXT: Text := ['n' as int, 'u' as int, 'l' as int, 'l' as int]
  const TRUE_TEXT: Text := ['t' as int, 'r' as int, 'u' as int, 'e' as int]
  const FALSE_TEXT: Text := ['f' as int, 'a' as int, 'l' as int, 's' as int, 'e' as int]

  predicate IsNumberUnit(u: CodeUnit) {
    '0' as int <= u <= '9' as int || u == '-' as int || u == '+' as int || u == '.' as int || u == 'e' as int || u == 'E' as int
  }

  predicate DistinctKeys(ms: seq<Member>) {
    forall i, j :: 0 <= i < j < |ms| ==> ms[i].key != ms[j].key
  }

  predicate WellFormed(v: Json) {
    match v
    case Number(literal) => literal != [] && forall i :: 0 <= i < |literal| ==> IsNumberUnit(literal[i])
    case Array(items) => forall i :: 0 <= i < |items| ==> WellFormed(items[i])
    case Object(ms) => DistinctKeys(ms) && forall i :: 0 <= i < |ms| ==> WellFormed(ms[i].value)
    case _ => true
  }

  // ---- Rendering ----

  predicate IsHigh(u: CodeUnit) { 0xD800 <= u < 0xDC00 }
  predicate IsLow(u: CodeUnit) { 0xDC00 <= u < 0xE000 }

  function HexUnit(d: int): CodeUnit
    requires 0 <= d < 16
  {
    if d < 10 then '0' as int + d else 'a' as int + d - 10
  }

  /** The one-character escapes. */
  function Short(u: CodeUnit): Option<CodeUnit> {
    if u == QUOTE || u == BACKSLASH then Some(u)
    else if u == 8 then Some('b' as int)
    else if u == 9 then Some('t' as int)
    else if u == 10 then Some('n' as int)
    else if u == 12 then Some('f' as int)
    else if u == 13 then Some('r' as int)
    else None
  }

  function Escaped(u: CodeUnit): Text {
    [BACKSLASH, LETTER_U, HexUnit(u / 4096), HexUnit(u / 256 % 16), HexUnit(u / 16 % 16), HexUnit(u % 16)]
  }

  function One(u: CodeUnit): Text {
    if Short(u).Some? then [BACKSLASH, Short(u).value]
    else if u < 32 || IsHigh(u) || IsLow(u) then Escaped(u)
    else [u]
  }

  /** Surrogates stay as they are in pairs and are escaped alone. */
  function Chars(s: Text): Text {
    if s == [] then []
    else if IsHigh(s[0]) && |s| > 1 && IsLow(s[1]) then [s[0], s[1]] + Chars(s[2..])
    else One(s[0]) + Chars(s[1..])
  }

  function Quoted(s: Text): Text {
    [QUOTE] + Chars(s) + [QUOTE]
  }

  /** `JSON.stringify`. */
  function Render(v: Json): Text {
    match v
    case Null => NULL_TEXT
    case Bool(flag) => if flag then TRUE_TEXT else FALSE_TEXT
    case Number(literal) => literal
    case String(text) => Quoted(text)
    case Array(items) => [OPEN_LIST] + RenderItems(items) + [CLOSE_LIST]
    case Object(ms) => [OPEN_OBJECT] + RenderMembers(ms) + [CLOSE_OBJECT]
  }

  function RenderItems(items: seq<Json>): Text {
    if items == [] then []
    else if |items| == 1 then Render(items[0])
    else Render(items[0]) + [COMMA] + RenderItems(items[1..])
  }

  function RenderMember(m: Member): Text {
    Quoted(m.key) + [COLON] + Render(m.value)
  }

  function RenderMembers(ms: seq<Member>): Text {
    if ms == [] then []
    else if |ms| == 1 then RenderMember(ms[0])
    else RenderMember(ms[0]) + [COMMA] + RenderMembers(ms[1..])
  }

  // ---- Sorting keys ----

  /** `Array.prototype.sort` on strings compares code units. */
  predicate Before(a: Text, b: Text) {
    b != [] && (a == [] || a[0] < b[0] || (a[0] == b[0] && Before(a[1..], b[1..])))
  }

  /** `a` is a proper prefix of `b`, or the first code unit in which they differ is the smaller one. */
  ghost predicate FirstDifferenceSmaller(a: Text, b: Text) {
    exists n: nat :: n <= |a| && n < |b| && a[..n] == b[..n] && (n == |a| || a[n] < b[n])
  }

  lemma {:induction false} BeforeMeans(a: Text, b: Text)
    ensures Before(a, b) <==> FirstDifferenceSmaller(a, b)
    decreases |a|
  {
    if a != [] && b != [] && a[0] == b[0] {
      var s, t := a[1..], b[1..];
      BeforeMeans(s, t);
      if FirstDifferenceSmaller(s, t) {
        var n: nat :| n <= |s| && n < |t| && s[..n] == t[..n] && (n == |s| || s[n] < t[n]);
        assert a[..n + 1] == [a[0]] + s[..n] && b[..n + 1] == [b[0]] + t[..n];
        assert n + 1 == |a| || a[n + 1] < b[n + 1];
      }
      if FirstDifferenceSmaller(a, b) {
        var n: nat :| n <= |a| && n < |b| && a[..n] == b[..n] && (n == |a| || a[n] < b[n]);
        assert n > 0;
        assert s[..n - 1] == a[..n][1..] && t[..n - 1] == b[..n][1..];
        assert n - 1 == |s| || s[n - 1] < t[n - 1];
      }
    } else if Before(a, b) {
      assert a[..0] == b[..0];
    } else {
      assert forall n: nat :: 0 < n <= |a| && n < |b| ==> a[..n][0] == a[0] && b[..n][0] == b[0];
    }
  }

  function Insert(m: Member, ms: seq<Member>): seq<Member> {
    if ms == [] || Before(m.key, ms[0].key) then [m] + ms else [ms[0]] + Insert(m, ms[1..])
  }

  function SortMembers(ms: seq<Member>): seq<Member> {
    if ms == [] then [] else Insert(ms[0], SortMembers(ms[1..]))
  }

  /** The value with the members of every object sorted by key. */
  function Canon(v: Json): Json {
    match v
    case Array(items) => Array(seq(|items|, i requires 0 <= i < |items| => Canon(items[i])))
    case Object(ms) => Object(SortMembers(CanonMembers(ms)))
    case _ => v
  }

  function CanonMembers(ms: seq<Member>): seq<Member> {
    seq(|ms|, i requires 0 <= i < |ms| => Member(ms[i].key, Canon(ms[i].value)))
  }

  /** `stableJson`, and `canonicalize`, which is the same function. */
  function StableJson(v: Json): Text {
    Render(Canon(v))
  }

  // ---- Parsing ----

  function HexValue(u: CodeUnit): Option<int> {
    if '0' as int <= u <= '9' as int then Some(u - '0' as int)
    else if 'a' as int <= u <= 'f' as int then Some(u - 'a' as int + 10)
    else if 'A' as int <= u <= 'F' as int then Some(u - 'A' as int + 10)
    else None
  }

  function Unshort(u: CodeUnit): Option<CodeUnit> {
    if u == QUOTE || u == BACKSLASH || u == '/' as int then Some(u)
    else if u == 'b' as int then Some(8)
    else if u == 't' as int then Some(9)
    else if u == 'n' as int then Some(10)
    else if u == 'f' as int then Some(12)
    else if u == 'r' as int then Some(13)
    else None
  }

  function FourHex(t: Text): Option<CodeUnit>
    requires |t| == 4
  {
    var a, b, c, d := HexValue(t[0]), HexValue(t[1]), HexValue(t[2]), HexValue(t[3]);
    if a.Some? && b.Some? && c.Some? && d.Some? && 0 <= ((a.value * 16 + b.value) * 16 + c.value) * 16 + d.value < 0x1_0000
    then Some(((a.value * 16 + b.value) * 16 + c.value) * 16 + d.value)
    else None
  }

  datatype Parsed<+T> = Parsed(value: T, rest: Text)

  function Prepend(u: CodeUnit, r: Option<Parsed<Text>>): Option<Parsed<Text>> {
    if r.None? then None else Some(Parsed([u] + r.value.value, r.value.rest))
  }

  /** The characters of a string up to its closing quote. */
  function ParseChars(t: Text): (r: Option<Parsed<Text>>)
    ensures r.Some? ==> |r.value.rest| < |t|
  {
    if t == [] then None
    else if t[0] == QUOTE then Some(Parsed([], t[1..]))
    else if t[0] == BACKSLASH then
      if |t| < 2 then None
      else if t[1] == LETTER_U then
        if |t| < 6 || FourHex(t[2..6]).None? then None else Prepend(FourHex(t[2..6]).value, ParseChars(t[6..]))
      else if Unshort(t[1]).None? then None
      else Prepend(Unshort(t[1]).value, ParseChars(t[2..]))
    else if t[0] < 32 then None
    else Prepend(t[0], ParseChars(t[1..]))
  }

  function NumberRun(t: Text): (n: nat)
    ensures n <= |t|
  {
    if t == [] || !IsNumberUnit(t[0]) then 0 else 1 + NumberRun(t[1..])
  }

  function ParseValue(t: Text): (r: Option<Parsed<Json>>)
    ensures r.Some? ==> |r.value.rest| < |t|
    decreases |t|, 0
  {
    if t == [] then None
    else if t[0] == QUOTE then
      var s := ParseChars(t[1..]);
      if s.None? then None else Some(Parsed(String(s.value.value), s.value.rest))
    else if t[0] == OPEN_LIST then
      if |t| > 1 && t[1] == CLOSE_LIST then Some(Parsed(Array([]), t[2..]))
      else
        var items := ParseItems(t[1..]);
        if items.None? then None else Some(Parsed(Array(items.value.value), items.value.rest))
    else if t[0] == OPEN_OBJECT then
      if |t| > 1 && t[1] == CLOSE_OBJECT then Some(Parsed(Object([]), t[2..]))
      else
        var ms := ParseMembers(t[1..]);
        if ms.None? then None else Some(Parsed(Object(ms.value.value), ms.value.rest))
    else if NULL_TEXT <= t then Some(Parsed(Null, t[4..]))
    else if TRUE_TEXT <= t then Some(Parsed(Bool(true), t[4..]))
    else if FALSE_TEXT <= t then Some(Parsed(Bool(false), t[5..]))
    else if NumberRun(t) > 0 then Some(Parsed(Number(t[..NumberRun(t)]), t[NumberRun(t)..]))
    else None
  }

  function ParseItems(t: Text): (r: Option<Parsed<seq<Json>>>)
    ensures r.Some? ==> |r.value.rest| < |t|
    decreases |t|, 1
  {
    var first := ParseValue(t);
    if first.None? || first.value.rest == [] then None
    else if first.value.rest[0] == CLOSE_LIST then Some(Parsed([first.value.value], first.value.rest[1..]))
    else if first.value.rest[0] != COMMA then None
    else
      var more := ParseItems(first.value.rest[1..]);
      if more.None? then None else Some(Parsed([first.value.value] + more.value.value, more.value.rest))
  }

  function ParseMember(t: Text): (r: Option<Parsed<Member>>)
    ensures r.Some? ==> |r.value.rest| < |t|
    decreases |t|, 1
  {
    if t == [] || t[0] != QUOTE then None
    else
      var key := ParseChars(t[1..]);
      if key.None? || key.value.rest == [] || key.value.rest[0] != COLON then None
      else
        var value := ParseValue(key.value.rest[1..]);
        if value.None? then None else Some(Parsed(Member(key.value.value, value.value.value), value.value.rest))
  }

  function ParseMembers(t: Text): (r: Option<Parsed<seq<Member>>>)
    ensures r.Some? ==> |r.value.rest| < |t|
    decreases |t|, 2
  {
    var first := ParseMember(t);
    if first.None? || first.value.rest == [] then None
    else if first.value.rest[0] == CLOSE_OBJECT then Some(Parsed([first.value.value], first.value.rest[1..]))
    else if first.value.rest[0] != COMMA then None
    else
      var more := ParseMembers(first.value.rest[1..]);
      if more.None? then None else Some(Parsed([first.value.value] + more.value.value, more.value.rest))
  }

  // ---- Parsing undoes rendering ----

  lemma HexInverse(d: int)
    requires 0 <= d < 16
    ensures HexValue(HexUnit(d)) == Some(d)
  {
  }

  lemma HexDigits(u: CodeUnit)
    ensures ((u / 4096 * 16 + u / 256 % 16) * 16 + u / 16 % 16) * 16 + u % 16 == u
    ensures 0 <= u / 4096 < 16
  {
  }

  lemma EscapedInverse(u: CodeUnit)
    ensures FourHex(Escaped(u)[2..6]) == Some(u)
  {
    var a, b, c, d := u / 4096, u / 256 % 16, u / 16 % 16, u % 16;
    HexDigits(u);
    HexInverse(a); HexInverse(b); HexInverse(c); HexInverse(d);
    var t := Escaped(u)[2..6];
    assert t == [HexUnit(a), HexUnit(b), HexUnit(c), HexUnit(d)];
    assert ((a * 16 + b) * 16 + c) * 16 + d == u;
  }

  lemma OneInverse(u: CodeUnit, t: Text)
    ensures ParseChars(One(u) + t) == Prepend(u, ParseChars(t))
  {
    var whole := One(u) + t;
    if Short(u).Some? {
      assert whole[2..] == t;
    } else if u < 32 || IsHigh(u) || IsLow(u) {
      EscapedInverse(u);
      assert whole[2..6] == Escaped(u)[2..6];
      assert whole[6..] == t;
    } else {
      assert whole[1..] == t;
    }
  }

  // Rendering in front of what follows, which is how the parser meets the text.

  function CharsTo(s: Text, rest: Text): Text {
    if s == [] then [QUOTE] + rest
    else if IsHigh(s[0]) && |s| > 1 && IsLow(s[1]) then [s[0]] + ([s[1]] + CharsTo(s[2..], rest))
    else One(s[0]) + CharsTo(s[1..], rest)
  }

  function RenderTo(v: Json, rest: Text): Text
    decreases v, 0
  {
    match v
    case String(text) => [QUOTE] + CharsTo(text, rest)
    case Array(items) => [OPEN_LIST] + ItemsTo(items, [CLOSE_LIST] + rest)
    case Object(ms) => [OPEN_OBJECT] + MembersTo(ms, [CLOSE_OBJECT] + rest)
    case _ => Render(v) + rest
  }

  function ItemsTo(items: seq<Json>, rest: Text): Text
    decreases items, 0
  {
    if items == [] then rest
    else if |items| == 1 then RenderTo(items[0], rest)
    else RenderTo(items[0], [COMMA] + ItemsTo(items[1..], rest))
  }

  function MemberTo(m: Member, rest: Text): Text
    decreases m, 0
  {
    [QUOTE] + CharsTo(m.key, [COLON] + RenderTo(m.value, rest))
  }

  function MembersTo(ms: seq<Member>, rest: Text): Text
    decreases ms, 0
  {
    if ms == [] then rest
    else if |ms| == 1 then MemberTo(ms[0], rest)
    else MemberTo(ms[0], [COMMA] + MembersTo(ms[1..], rest))
  }

  lemma Assoc(a: Text, b: Text, c: Text)
    ensures a + b + c == a + (b + c)
  {
  }

  lemma {:induction false} CharsToIs(s: Text, rest: Text)
    ensures CharsTo(s, rest) == Chars(s) + ([QUOTE] + rest)
  {
    var tail := [QUOTE] + rest;
    if s == [] {
      assert Chars(s) + tail == tail;
    } else if IsHigh(s[0]) && |s| > 1 && IsLow(s[1]) {
      CharsToIs(s[2..], rest);
      Assoc([s[0], s[1]], Chars(s[2..]), tail);
      Assoc([s[0]], [s[1]], Chars(s[2..]) + tail);
      assert [s[0]] + [s[1]] == [s[0], s[1]];
    } else {
      CharsToIs(s[1..], rest);
      Assoc(One(s[0]), Chars(s[1..]), tail);
    }
  }

  lemma QuotedToIs(s: Text, rest: Text)
    ensures [QUOTE] + CharsTo(s, rest) == Quoted(s) + rest
  {
    CharsToIs(s, rest);
    Assoc([QUOTE], Chars(s), [QUOTE] + rest);
    Assoc([QUOTE] + Chars(s), [QUOTE], rest);
  }

  lemma {:induction false} RenderToIs(v: Json, rest: Text)
    ensures RenderTo(v, rest) == Render(v) + rest
    decreases v, 0
  {
    match v
    case String(text) => QuotedToIs(text, rest);
    case Array(items) =>
      ItemsToIs(items, [CLOSE_LIST] + rest);
      Assoc([OPEN_LIST], RenderItems(items), [CLOSE_LIST] + rest);
      Assoc([OPEN_LIST] + RenderItems(items), [CLOSE_LIST], rest);
    case Object(ms) =>
      MembersToIs(ms, [CLOSE_OBJECT] + rest);
      Assoc([OPEN_OBJECT], RenderMembers(ms), [CLOSE_OBJECT] + rest);
      Assoc([OPEN_OBJECT] + RenderMembers(ms), [CLOSE_OBJECT], rest);
    case _ =>
  }

  lemma {:induction false} ItemsToIs(items: seq<Json>, rest: Text)
    ensures ItemsTo(items, rest) == RenderItems(items) + rest
    decreases items, 0
  {
    if items == [] {
    } else if |items| == 1 {
      RenderToIs(items[0], rest);
    } else {
      var more := ItemsTo(items[1..], rest);
      RenderToIs(items[0], [COMMA] + more);
      ItemsToIs(items[1..], rest);
      Assoc(Render(items[0]), [COMMA], more);
      Assoc(Render(items[0]) + [COMMA], RenderItems(items[1..]), rest);
    }
  }

  lemma {:induction false} MemberToIs(m: Member, rest: Text)
    ensures MemberTo(m, rest) == RenderMember(m) + rest
    decreases m, 0
  {
    var value := RenderTo(m.value, rest);
    QuotedToIs(m.key, [COLON] + value);
    RenderToIs(m.value, rest);
    Assoc(Quoted(m.key), [COLON], value);
    Assoc(Quoted(m.key) + [COLON], Render(m.value), rest);
  }

  lemma {:induction false} MembersToIs(ms: seq<Member>, rest: Text)
    ensures MembersTo(ms, rest) == RenderMembers(ms) + rest
    decreases ms, 0
  {
    if ms == [] {
    } else if |ms| == 1 {
      MemberToIs(ms[0], rest);
    } else {
      var more := MembersTo(ms[1..], rest);
      MemberToIs(ms[0], [COMMA] + more);
      MembersToIs(ms[1..], rest);
      Assoc(RenderMember(ms[0]), [COMMA], more);
      Assoc(RenderMember(ms[0]) + [COMMA], RenderMembers(ms[1..]), rest);
    }
  }

  lemma Step(u: CodeUnit, t: Text)
    ensures ([u] + t)[0] == u && ([u] + t)[1..] == t
  {
  }

  lemma {:induction false} CharsRoundTrip(s: Text, rest: Text)
    ensures ParseChars(CharsTo(s, rest)) == Some(Parsed(s, rest))
  {
    if s == [] {
      Step(QUOTE, rest);
    } else if IsHigh(s[0]) && |s| > 1 && IsLow(s[1]) {
      var t := CharsTo(s[2..], rest);
      CharsRoundTrip(s[2..], rest);
      Step(s[1], t);
      Step(s[0], [s[1]] + t);
      assert ParseChars([s[1]] + t) == Prepend(s[1], ParseChars(t));
      assert [s[0]] + ([s[1]] + s[2..]) == s;
    } else {
      CharsRoundTrip(s[1..], rest);
      OneInverse(s[0], CharsTo(s[1..], rest));
      assert [s[0]] + s[1..] == s;
    }
  }

  /** What may follow a value: the end, or anything that cannot continue a number. */
  predicate Ends(rest: Text) {
    rest == [] || !IsNumberUnit(rest[0])
  }

  lemma {:induction false} RunOfNumber(literal: Text, rest: Text)
    requires Ends(rest) && forall i :: 0 <= i < |literal| ==> IsNumberUnit(literal[i])
    ensures NumberRun(literal + rest) == |literal|
  {
    if literal == [] {
      assert literal + rest == rest;
    } else {
      assert (literal + rest)[1..] == literal[1..] + rest;
      RunOfNumber(literal[1..], rest);
    }
  }

  lemma FirstUnit(v: Json, rest: Text)
    requires WellFormed(v)
    ensures RenderTo(v, rest) != [] && RenderTo(v, rest)[0] != CLOSE_LIST
  {
  }

  lemma NumberRoundTrip(literal: Text, rest: Text)
    requires WellFormed(Number(literal)) && Ends(rest)
    ensures ParseValue(literal + rest) == Some(Parsed(Number(literal), rest))
  {
    var t := literal + rest;
    RunOfNumber(literal, rest);
    assert t[0] == literal[0];
    assert t[..|literal|] == literal && t[|literal|..] == rest;
  }

  lemma KeywordsRoundTrip(rest: Text)
    ensures ParseValue(NULL_TEXT + rest) == Some(Parsed(Null, rest))
    ensures ParseValue(TRUE_TEXT + rest) == Some(Parsed(Bool(true), rest))
    ensures ParseValue(FALSE_TEXT + rest) == Some(Parsed(Bool(false), rest))
  {
    assert (NULL_TEXT + rest)[4..] == rest;
    assert (TRUE_TEXT + rest)[4..] == rest;
    assert (FALSE_TEXT + rest)[5..] == rest;
  }

  /** Parsing a rendered value gives the value back and leaves what followed it. */
  lemma {:induction false} RoundTrip(v: Json, rest: Text)
    requires WellFormed(v) && Ends(rest)
    ensures ParseValue(RenderTo(v, rest)) == Some(Parsed(v, rest))
    decreases v, 0
  {
    match v
    case Null => KeywordsRoundTrip(rest);
    case Bool(flag) => KeywordsRoundTrip(rest);
    case Number(literal) => NumberRoundTrip(literal, rest);
    case String(s) =>
      CharsRoundTrip(s, rest);
      Step(QUOTE, CharsTo(s, rest));
    case Array(items) =>
      var t := ItemsTo(items, [CLOSE_LIST] + rest);
      if items == [] {
        Step(CLOSE_LIST, rest);
        assert ([OPEN_LIST] + t)[2..] == rest;
      } else {
        ItemsRoundTrip(items, rest);
        FirstUnit(items[0], if |items| == 1 then [CLOSE_LIST] + rest else [COMMA] + ItemsTo(items[1..], [CLOSE_LIST] + rest));
        Step(OPEN_LIST, t);
      }
    case Object(ms) =>
      var t := MembersTo(ms, [CLOSE_OBJECT] + rest);
      if ms == [] {
        Step(CLOSE_OBJECT, rest);
        assert ([OPEN_OBJECT] + t)[2..] == rest;
      } else {
        MembersRoundTrip(ms, rest);
        assert t[0] == QUOTE;
        Step(OPEN_OBJECT, t);
      }
  }

  lemma {:induction false} ItemsRoundTrip(items: seq<Json>, rest: Text)
    requires items != [] && forall i :: 0 <= i < |items| ==> WellFormed(items[i])
    ensures ParseItems(ItemsTo(items, [CLOSE_LIST] + rest)) == Some(Parsed(items, rest))
    decreases items, 0
  {
    if |items| == 1 {
      RoundTrip(items[0], [CLOSE_LIST] + rest);
      Step(CLOSE_LIST, rest);
      assert [items[0]] == items;
    } else {
      var tail := ItemsTo(items[1..], [CLOSE_LIST] + rest);
      RoundTrip(items[0], [COMMA] + tail);
      ItemsRoundTrip(items[1..], rest);
      Step(COMMA, tail);
      assert [items[0]] + items[1..] == items;
    }
  }

  lemma {:induction false} MemberRoundTrip(m: Member, rest: Text)
    requires WellFormed(m.value) && Ends(rest)
    ensures ParseMember(MemberTo(m, rest)) == Some(Parsed(m, rest))
    decreases m, 0
  {
    var value := RenderTo(m.value, rest);
    CharsRoundTrip(m.key, [COLON] + value);
    Step(QUOTE, CharsTo(m.key, [COLON] + value));
    Step(COLON, value);
    RoundTrip(m.value, rest);
  }

  lemma {:induction false} MembersRoundTrip(ms: seq<Member>, rest: Text)
    requires ms != [] && forall i :: 0 <= i < |ms| ==> WellFormed(ms[i].value)
    ensures ParseMembers(MembersTo(ms, [CLOSE_OBJECT] + rest)) == Some(Parsed(ms, rest))
    decreases ms, 0
  {
    if |ms| == 1 {
      MemberRoundTrip(ms[0], [CLOSE_OBJECT] + rest);
      Step(CLOSE_OBJECT, rest);
      assert [ms[0]] == ms;
    } else {
      var tail := MembersTo(ms[1..], [CLOSE_OBJECT] + rest);
      MemberRoundTrip(ms[0], [COMMA] + tail);
      MembersRoundTrip(ms[1..], rest);
      Step(COMMA, tail);
      assert [ms[0]] + ms[1..] == ms;
    }
  }

  /** `JSON.parse` of a whole text. */
  function ParseJson(t: Text): Option<Json> {
    var r := ParseValue(t);
    if r.Some? && r.value.rest == [] then Some(r.value.value) else None
  }

  lemma ParseOfRender(v: Json)
    requires WellFormed(v)
    ensures ParseJson(Render(v)) == Some(v)
  {
    RoundTrip(v, []);
    RenderToIs(v, []);
    assert Render(v) + [] == Render(v);
  }

  // ---- The same value up to key order ----

  predicate Equiv(v: Json, w: Json)
    decreases v, 0
  {
    match (v, w)
    case (Array(a), Array(b)) => |a| == |b| && forall i :: 0 <= i < |a| ==> Equiv(a[i], b[i])
    case (Object(a), Object(b)) =>
      |a| == |b| && forall i :: 0 <= i < |a| ==> HasMember(b, a[i])
    case _ => v == w
  }

  predicate HasMember(ms: seq<Member>, m: Member)
    decreases m, 0
  {
    exists j :: 0 <= j < |ms| && m.key == ms[j].key && Equiv(m.value, ms[j].value)
  }

  lemma {:induction false} BeforeOrder(a: Text, b: Text, c: Text)
    ensures !Before(a, a)
    ensures Before(a, b) && Before(b, c) ==> Before(a, c)
    ensures a != b ==> Before(a, b) || Before(b, a)
    ensures !(Before(a, b) && Before(b, a))
    decreases |a| + |b| + |c|
  {
    if a != [] && b != [] {
      BeforeOrder(a[1..], b[1..], if c != [] then c[1..] else []);
      if a[0] == b[0] && a[1..] == b[1..] {
        assert a == [a[0]] + a[1..] && b == [b[0]] + b[1..];
      }
    }
    if a != [] && b == [] {
      BeforeOrder(a[1..], [], []);
    }
  }

  predicate Sorted(ms: seq<Member>) {
    forall i, j :: 0 <= i < j < |ms| ==> Before(ms[i].key, ms[j].key)
  }

  lemma {:induction false} InsertSorted(m: Member, ms: seq<Member>)
    requires Sorted(ms) && forall i :: 0 <= i < |ms| ==> ms[i].key != m.key
    ensures Sorted(Insert(m, ms)) && |Insert(m, ms)| == |ms| + 1
    ensures forall x :: x in Insert(m, ms) <==> x == m || x in ms
  {
    if ms == [] {
    } else if Before(m.key, ms[0].key) {
      forall j | 1 <= j < |ms| ensures Before(m.key, ms[j].key) {
        BeforeOrder(m.key, ms[0].key, ms[j].key);
      }
    } else {
      var rest := Insert(m, ms[1..]);
      InsertSorted(m, ms[1..]);
      BeforeOrder(m.key, ms[0].key, []);
      forall j | 0 <= j < |rest| ensures Before(ms[0].key, rest[j].key) {
        assert rest[j] in rest;
        if rest[j] != m {
          var k :| 0 <= k < |ms| - 1 && ms[1..][k] == rest[j];
          assert ms[k + 1] == rest[j];
        }
      }
      assert ms == [ms[0]] + ms[1..];
    }
  }

  lemma {:induction false} SortSorts(ms: seq<Member>)
    requires DistinctKeys(ms)
    ensures Sorted(SortMembers(ms)) && |SortMembers(ms)| == |ms|
    ensures forall x :: x in SortMembers(ms) <==> x in ms
  {
    if ms != [] {
      var rest := SortMembers(ms[1..]);
      SortSorts(ms[1..]);
      forall i | 0 <= i < |rest| ensures rest[i].key != ms[0].key {
        assert rest[i] in ms[1..];
        var k :| 0 <= k < |ms| - 1 && ms[1..][k] == rest[i];
        assert ms[k + 1] == rest[i];
      }
      InsertSorted(ms[0], rest);
      assert ms == [ms[0]] + ms[1..];
    }
  }

  /** What sorting does: the members stay the same and their keys ascend by code units. */
  lemma KeysAscend(ms: seq<Member>)
    requires DistinctKeys(ms)
    ensures forall x :: x in SortMembers(ms) <==> x in ms
    ensures |SortMembers(ms)| == |ms|
    ensures forall i, j :: 0 <= i < j < |ms| ==> FirstDifferenceSmaller(SortMembers(ms)[i].key, SortMembers(ms)[j].key)
  {
    SortSorts(ms);
    var sorted := SortMembers(ms);
    forall i, j | 0 <= i < j < |ms| ensures FirstDifferenceSmaller(sorted[i].key, sorted[j].key) {
      BeforeMeans(sorted[i].key, sorted[j].key);
    }
  }

  /** Sorted member lists with the same members are the same list. */
  lemma {:induction false} SortedUnique(a: seq<Member>, b: seq<Member>)
    requires Sorted(a) && Sorted(b) && forall x :: x in a <==> x in b
    ensures a == b
  {
    assert forall i :: 0 <= i < |b| ==> b[i] in b;
    assert |b| > 0 ==> b[0] in a;
    if a != [] {
      assert a[0] in b;
      assert b[0] in a;
      var i :| 0 <= i < |b| && b[i] == a[0];
      var j :| 0 <= j < |a| && a[j] == b[0];
      BeforeOrder(a[0].key, b[0].key, []);
      assert a[0] == b[0];
      forall x ensures x in a[1..] <==> x in b[1..] {
        TailMembers(a, x);
        TailMembers(b, x);
      }
      SortedUnique(a[1..], b[1..]);
      assert a == [a[0]] + a[1..] && b == [b[0]] + b[1..];
    }
  }

  lemma TailMembers(s: seq<Member>, x: Member)
    requires Sorted(s) && s != []
    ensures x in s[1..] <==> x in s && x != s[0]
  {
    if x in s[1..] {
      var k :| 0 <= k < |s| - 1 && s[1..][k] == x;
      assert s[k + 1] == x;
      BeforeOrder(s[0].key, x.key, []);
    }
    assert s == [s[0]] + s[1..];
  }

  /** Two member lists sort to the same list exactly when they have the same members. */
  lemma SortAgrees(a: seq<Member>, b: seq<Member>)
    requires DistinctKeys(a) && DistinctKeys(b)
    ensures SortMembers(a) == SortMembers(b) <==> |a| == |b| && forall i :: 0 <= i < |a| ==> a[i] in b
  {
    SortSorts(a);
    SortSorts(b);
    if SortMembers(a) == SortMembers(b) {
      forall i | 0 <= i < |a| ensures a[i] in b {
        assert a[i] in SortMembers(a);
      }
    }
    if |a| == |b| && forall i :: 0 <= i < |a| ==> a[i] in b {
      DistinctSize(b);
      assert forall x :: x in b <==> x in Elements(b);
      assert forall x :: x in a <==> x in Elements(a);
      DistinctExhausts(a, Elements(b));
      SortedUnique(SortMembers(a), SortMembers(b));
    }
  }

  lemma CanonKeys(ms: seq<Member>)
    requires DistinctKeys(ms)
    ensures DistinctKeys(CanonMembers(ms)) && |CanonMembers(ms)| == |ms|
  {
  }

  /** Sorting keys identifies exactly the values that are the same up to key order. */
  lemma {:induction false} CanonAgrees(v: Json, w: Json)
    requires WellFormed(v) && WellFormed(w)
    ensures Canon(v) == Canon(w) <==> Equiv(v, w)
    decreases v
  {
    if v.Array? && w.Array? {
      var a, b := v.items, w.items;
      if |a| == |b| {
        forall i | 0 <= i < |a| ensures Canon(a[i]) == Canon(b[i]) <==> Equiv(a[i], b[i]) {
          CanonAgrees(a[i], b[i]);
        }
        if Canon(v) == Canon(w) {
          forall i | 0 <= i < |a| ensures Canon(a[i]) == Canon(b[i]) {
            assert Canon(v).items[i] == Canon(w).items[i];
          }
        }
      }
    } else if v.Object? && w.Object? {
      var a, b := v.members, w.members;
      forall i | 0 <= i < |a| ensures HasMember(b, a[i]) <==> CanonMembers(a)[i] in CanonMembers(b) {
        forall j | 0 <= j < |b| ensures Canon(a[i].value) == Canon(b[j].value) <==> Equiv(a[i].value, b[j].value) {
          CanonAgrees(a[i].value, b[j].value);
        }
        MemberMatches(a, i, b);
      }
      CanonKeys(a);
      CanonKeys(b);
      SortAgrees(CanonMembers(a), CanonMembers(b));
    }
  }

  lemma MemberMatches(a: seq<Member>, i: nat, b: seq<Member>)
    requires i < |a|
    requires forall j :: 0 <= j < |b| ==> (Canon(a[i].value) == Canon(b[j].value) <==> Equiv(a[i].value, b[j].value))
    ensures HasMember(b, a[i]) <==> CanonMembers(a)[i] in CanonMembers(b)
  {
    var m := CanonMembers(a)[i];
    if HasMember(b, a[i]) {
      var j :| 0 <= j < |b| && a[i].key == b[j].key && Equiv(a[i].value, b[j].value);
      assert CanonMembers(b)[j] == m;
    }
    if m in CanonMembers(b) {
      var j :| 0 <= j < |b| && CanonMembers(b)[j] == m;
    }
  }

  lemma {:induction false} CanonWellFormed(v: Json)
    requires WellFormed(v)
    ensures WellFormed(Canon(v))
  {
    match v
    case Array(items) =>
      forall i | 0 <= i < |items| ensures WellFormed(Canon(items[i])) { CanonWellFormed(items[i]); }
    case Object(ms) =>
      var sorted := SortMembers(CanonMembers(ms));
      CanonKeys(ms);
      SortSorts(CanonMembers(ms));
      forall i, j | 0 <= i < j < |sorted| ensures sorted[i].key != sorted[j].key {
        BeforeOrder(sorted[i].key, sorted[j].key, []);
      }
      forall k | 0 <= k < |sorted| ensures WellFormed(sorted[k].value) {
        assert sorted[k] in CanonMembers(ms);
        var i :| 0 <= i < |ms| && CanonMembers(ms)[i] == sorted[k];
        CanonWellFormed(ms[i].value);
      }
    case _ =>
  }

  /** The stable rendering tells two values apart exactly when they differ in more than key order. */
  lemma StableJsonInjective(v: Json, w: Json)
    requires WellFormed(v) && WellFormed(w)
    ensures StableJson(v) == StableJson(w) <==> Equiv(v, w)
    ensures ParseJson(StableJson(v)).Some? && Equiv(v, ParseJson(StableJson(v)).value)
  {
    CanonWellFormed(v);
    CanonWellFormed(w);
    ParseOfRender(Canon(v));
    ParseOfRender(Canon(w));
    CanonAgrees(v, w);
    CanonIdempotent(v);
    CanonAgrees(v, Canon(v));
  }

  lemma {:induction false} CanonIdempotent(v: Json)
    requires WellFormed(v)
    ensures Canon(Canon(v)) == Canon(v)
  {
    match v
    case Array(items) =>
      forall i | 0 <= i < |items| ensures Canon(Canon(items[i])) == Canon(items[i]) { CanonIdempotent(items[i]); }
    case Object(ms) =>
      var sorted := SortMembers(CanonMembers(ms));
      CanonKeys(ms);
      SortSorts(CanonMembers(ms));
      forall k | 0 <= k < |sorted| ensures CanonMembers(sorted)[k] == sorted[k] {
        assert sorted[k] in CanonMembers(ms);
        var i :| 0 <= i < |ms| && CanonMembers(ms)[i] == sorted[k];
        CanonIdempotent(ms[i].value);
      }
      assert CanonMembers(sorted) == sorted;
      SortOfSorted(sorted);
    case _ =>
  }

  lemma SortOfSorted(ms: seq<Member>)
    requires Sorted(ms)
    ensures SortMembers(ms) == ms
  {
    forall i, j | 0 <= i < j < |ms| ensures ms[i].key != ms[j].key {
      BeforeOrder(ms[i].key, ms[j].key, []);
    }
    SortSorts(ms);
    SortedUnique(SortMembers(ms), ms);
  }

  // ---- Size ----

  /** UTF-8 bytes of a code unit; each half of a surrogate pair stands for two of the pair's four. */
  function UnitBytes(u: CodeUnit): nat {
    if u < 0x80 then 1 else if u < 0x800 || IsHigh(u) || IsLow(u) then 2 else 3
  }

  function ByteLength(t: Text): nat {
    if t == [] then 0 else UnitBytes(t[0]) + ByteLength(t[1..])
  }

  lemma {:induction false} ByteLengthConcat(a: Text, b: Text)
    ensures ByteLength(a + b) == ByteLength(a) + ByteLength(b)
  {
    if a == [] {
      assert a + b == b;
    } else {
      assert (a + b)[1..] == a[1..] + b;
      ByteLengthConcat(a[1..], b);
    }
  }

  function ItemsSize(items: seq<Json>): nat {
    if items == [] then 0 else ByteLength(Render(items[0])) + 1 + ItemsSize(items[1..])
  }

  function MembersSize(ms: seq<Member>): nat {
    if ms == [] then 0 else ByteLength(RenderMember(ms[0])) + 1 + MembersSize(ms[1..])
  }

  lemma {:induction false} ItemsLength(items: seq<Json>)
    requires items != []
    ensures ByteLength(RenderItems(items)) + 1 == ItemsSize(items)
  {
    if |items| > 1 {
      ItemsLength(items[1..]);
      ByteLengthConcat(Render(items[0]) + [COMMA], RenderItems(items[1..]));
      ByteLengthConcat(Render(items[0]), [COMMA]);
      assert ByteLength([COMMA]) == 1;
    }
  }

  lemma {:induction false} MembersLength(ms: seq<Member>)
    requires ms != []
    ensures ByteLength(RenderMembers(ms)) + 1 == MembersSize(ms)
  {
    if |ms| > 1 {
      MembersLength(ms[1..]);
      ByteLengthConcat(RenderMember(ms[0]) + [COMMA], RenderMembers(ms[1..]));
      ByteLengthConcat(RenderMember(ms[0]), [COMMA]);
      assert ByteLength([COMMA]) == 1;
    }
  }

  lemma {:induction false} InsertSize(m: Member, ms: seq<Member>)
    ensures MembersSize(Insert(m, ms)) == ByteLength(RenderMember(m)) + 1 + MembersSize(ms)
    ensures Insert(m, ms) != []
  {
    if ms == [] || Before(m.key, ms[0].key) {
      assert ([m] + ms)[1..] == ms;
    } else {
      InsertSize(m, ms[1..]);
      assert ([ms[0]] + Insert(m, ms[1..]))[1..] == Insert(m, ms[1..]);
    }
  }

  lemma {:induction false} SortSize(ms: seq<Member>)
    ensures MembersSize(SortMembers(ms)) == MembersSize(ms)
    ensures ms != [] ==> SortMembers(ms) != []
  {
    if ms != [] {
      SortSize(ms[1..]);
      InsertSize(ms[0], SortMembers(ms[1..]));
    }
  }

  lemma BracketedLength(open: CodeUnit, body: Text, close: CodeUnit)
    requires open < 0x80 && close < 0x80
    ensures ByteLength([open] + body + [close]) == ByteLength(body) + 2
  {
    ByteLengthConcat([open] + body, [close]);
    ByteLengthConcat([open], body);
    assert ByteLength([open]) == 1 && ByteLength([close]) == 1;
  }

  lemma MemberLength(m: Member)
    ensures ByteLength(RenderMember(m)) == ByteLength(Quoted(m.key)) + 1 + ByteLength(Render(m.value))
  {
    ByteLengthConcat(Quoted(m.key) + [COLON], Render(m.value));
    ByteLengthConcat(Quoted(m.key), [COLON]);
    assert ByteLength([COLON]) == 1;
  }

  /** The stable rendering is exactly as long, in bytes, as `JSON.stringify`'s. */
  lemma {:induction false} StableLength(v: Json)
    ensures ByteLength(StableJson(v)) == ByteLength(Render(v))
    decreases v, 0
  {
    match v
    case Array(items) =>
      var canon := Canon(v).items;
      CanonItemsSize(items);
      BracketedLength(OPEN_LIST, RenderItems(canon), CLOSE_LIST);
      BracketedLength(OPEN_LIST, RenderItems(items), CLOSE_LIST);
      if items != [] {
        ItemsLength(items);
        ItemsLength(canon);
      }
    case Object(ms) =>
      var canon := SortMembers(CanonMembers(ms));
      CanonMembersSize(ms);
      SortSize(CanonMembers(ms));
      BracketedLength(OPEN_OBJECT, RenderMembers(canon), CLOSE_OBJECT);
      BracketedLength(OPEN_OBJECT, RenderMembers(ms), CLOSE_OBJECT);
      if ms != [] {
        MembersLength(ms);
        MembersLength(canon);
      }
    case _ =>
  }

  lemma {:induction false} CanonItemsSize(items: seq<Json>)
    ensures ItemsSize(Canon(Array(items)).items) == ItemsSize(items)
    decreases items, 0
  {
    if items != [] {
      StableLength(items[0]);
      CanonItemsSize(items[1..]);
      assert Canon(Array(items)).items[1..] == Canon(Array(items[1..])).items;
    }
  }

  lemma {:induction false} CanonMembersSize(ms: seq<Member>)
    ensures MembersSize(CanonMembers(ms)) == MembersSize(ms)
    decreases ms, 0
  {
    if ms != [] {
      StableLength(ms[0].value);
      CanonMembersSize(ms[1..]);
      assert CanonMembers(ms)[1..] == CanonMembers(ms[1..]);
      MemberLength(ms[0]);
      MemberLength(CanonMembers(ms)[0]);
    }
  }

  // ---- Encoding ----

  predicate IsSurrogate(u: CodeUnit) {
    IsHigh(u) || IsLow(u)
  }

  /** Surrogates only in pairs: what a rendered text always is, since lone ones are escaped. */
  predicate Paired(t: Text) {
    if t == [] then true
    else if IsHigh(t[0]) then |t| > 1 && IsLow(t[1]) && Paired(t[2..])
    else !IsLow(t[0]) && Paired(t[1..])
  }

  function CodePoint(high: CodeUnit, low: CodeUnit): int
    requires IsHigh(high) && IsLow(low)
  {
    0x1_0000 + (high - 0xD800) * 0x400 + (low - 0xDC00)
  }

  function TwoBytes(u: CodeUnit): B.Bytes
    requires u < 0x800
  {
    [0xC0 + u / 64, 0x80 + u % 64]
  }

  function ThreeBytes(u: CodeUnit): B.Bytes {
    [0xE0 + u / 4096, 0x80 + u / 64 % 64, 0x80 + u % 64]
  }

  function FourBytes(point: int): B.Bytes
    requires 0x1_0000 <= point < 0x11_0000
  {
    [0xF0 + point / 0x4_0000, 0x80 + point / 4096 % 64, 0x80 + point / 64 % 64, 0x80 + point % 64]
  }

  function UnitUtf8(u: CodeUnit): B.Bytes {
    if u < 0x80 then [u] else if u < 0x800 then TwoBytes(u) else if IsSurrogate(u) then ThreeBytes(0xFFFD) else ThreeBytes(u)
  }

  /** UTF-8 as the platform encodes a string: a lone surrogate becomes the replacement character. */
  function Utf8(t: Text): B.Bytes {
    if t == [] then []
    else if IsHigh(t[0]) && |t| > 1 && IsLow(t[1]) then FourBytes(CodePoint(t[0], t[1])) + Utf8(t[2..])
    else UnitUtf8(t[0]) + Utf8(t[1..])
  }

  lemma {:induction false} Utf8Size(t: Text)
    requires Paired(t)
    ensures |Utf8(t)| == ByteLength(t)
  {
    if t == [] {
    } else if IsHigh(t[0]) {
      Utf8Size(t[2..]);
      assert t[1..][1..] == t[2..];
      assert ByteLength(t) == 2 + ByteLength(t[1..]) && ByteLength(t[1..]) == 2 + ByteLength(t[2..]);
    } else {
      Utf8Size(t[1..]);
    }
  }

  /** A decoded unit; decoding only ever meets what encoding made. */
  function Unit(x: int): CodeUnit {
    if 0 <= x < 0x1_0000 then x else 0xFFFD
  }

  function JoinTwo(a: int, b: int): int {
    (a - 0xC0) * 64 + (b - 0x80)
  }

  function JoinThree(a: int, b: int, c: int): int {
    ((a - 0xE0) * 64 + (b - 0x80)) * 64 + (c - 0x80)
  }

  function JoinFour(a: int, b: int, c: int, d: int): int {
    (((a - 0xF0) * 64 + (b - 0x80)) * 64 + (c - 0x80)) * 64 + (d - 0x80)
  }

  function DecodeUtf8(b: B.Bytes): Text {
    if b == [] then []
    else if b[0] < 0x80 then [b[0]] + DecodeUtf8(b[1..])
    else if b[0] < 0xE0 && |b| >= 2 then [Unit(JoinTwo(b[0], b[1]))] + DecodeUtf8(b[2..])
    else if b[0] < 0xF0 && |b| >= 3 then [Unit(JoinThree(b[0], b[1], b[2]))] + DecodeUtf8(b[3..])
    else if |b| >= 4 then
      var offset := JoinFour(b[0], b[1], b[2], b[3]) - 0x1_0000;
      [Unit(0xD800 + offset / 0x400), Unit(0xDC00 + offset % 0x400)] + DecodeUtf8(b[4..])
    else []
  }

  lemma SplitUnit(u: CodeUnit)
    ensures u / 64 * 64 + u % 64 == u
    ensures (u / 4096 * 64 + u / 64 % 64) * 64 + u % 64 == u && 0 <= u / 4096 < 16
  {
  }

  lemma SplitPoint(point: int)
    requires 0x1_0000 <= point < 0x11_0000
    ensures ((point / 0x4_0000 * 64 + point / 4096 % 64) * 64 + point / 64 % 64) * 64 + point % 64 == point
    ensures 0 <= point / 0x4_0000 < 8
  {
  }

  lemma SplitPair(high: CodeUnit, low: CodeUnit)
    requires IsHigh(high) && IsLow(low)
    ensures var offset := CodePoint(high, low) - 0x1_0000; 0xD800 + offset / 0x400 == high && 0xDC00 + offset % 0x400 == low
  {
  }

  lemma UnitDecodes(u: CodeUnit, rest: B.Bytes)
    requires !IsSurrogate(u)
    ensures DecodeUtf8(UnitUtf8(u) + rest) == [u] + DecodeUtf8(rest)
  {
    var whole := UnitUtf8(u) + rest;
    assert whole[|UnitUtf8(u)|..] == rest;
    if 0x80 <= u < 0x800 {
      assert JoinTwo(whole[0], whole[1]) == u by { SplitUnit(u); }
    } else if u >= 0x800 {
      assert JoinThree(whole[0], whole[1], whole[2]) == u by { SplitUnit(u); }
    }
  }

  lemma FourDecode(b: B.Bytes, point: int, rest: B.Bytes)
    requires |b| == 4 && b[0] >= 0xF0 && JoinFour(b[0], b[1], b[2], b[3]) == point
    ensures DecodeUtf8(b + rest)
      == [Unit(0xD800 + (point - 0x1_0000) / 0x400), Unit(0xDC00 + (point - 0x1_0000) % 0x400)] + DecodeUtf8(rest)
  {
    hide JoinFour;
    hide Unit;
    var whole := b + rest;
    assert whole[4..] == rest;
  }

  lemma FourBytesJoin(point: int)
    requires 0x1_0000 <= point < 0x11_0000
    ensures var b := FourBytes(point); b[0] >= 0xF0 && JoinFour(b[0], b[1], b[2], b[3]) == point
  {
    SplitPoint(point);
  }

  lemma PairDecodes(high: CodeUnit, low: CodeUnit, rest: B.Bytes)
    requires IsHigh(high) && IsLow(low)
    ensures DecodeUtf8(FourBytes(CodePoint(high, low)) + rest) == [high, low] + DecodeUtf8(rest)
  {
    hide DecodeUtf8;
    hide JoinFour;
    var point := CodePoint(high, low);
    FourBytesJoin(point);
    hide FourBytes;
    FourDecode(FourBytes(point), point, rest);
    SplitPair(high, low);
  }

  /** Decoding gives back every well-formed text. */
  lemma {:induction false} Utf8RoundTrip(t: Text)
    requires Paired(t)
    ensures DecodeUtf8(Utf8(t)) == t
  {
    if t == [] {
    } else if IsHigh(t[0]) {
      Utf8RoundTrip(t[2..]);
      PairDecodes(t[0], t[1], Utf8(t[2..]));
      assert [t[0], t[1]] + t[2..] == t;
    } else {
      Utf8RoundTrip(t[1..]);
      UnitDecodes(t[0], Utf8(t[1..]));
      assert [t[0]] + t[1..] == t;
    }
  }

  /** It could not give back lone surrogates: they are encoded alike. */
  lemma LoneSurrogatesCollide()
    ensures Utf8([0xD800]) == Utf8([0xD801])
  {
    assert Utf8([0xD800]) == ThreeBytes(0xFFFD) + Utf8([]) && Utf8([0xD801]) == ThreeBytes(0xFFFD) + Utf8([]);
  }

  lemma {:induction false} PairedConcat(a: Text, b: Text)
    requires Paired(a) && Paired(b)
    ensures Paired(a + b)
  {
    if a == [] {
      assert a + b == b;
    } else if IsHigh(a[0]) {
      assert (a + b)[2..] == a[2..] + b;
      PairedConcat(a[2..], b);
    } else {
      assert (a + b)[1..] == a[1..] + b;
      PairedConcat(a[1..], b);
    }
  }

  lemma {:induction false} PlainIsPaired(t: Text)
    requires forall i :: 0 <= i < |t| ==> !IsSurrogate(t[i])
    ensures Paired(t)
  {
    if t != [] {
      PlainIsPaired(t[1..]);
    }
  }

  lemma {:induction false} CharsPaired(s: Text)
    ensures Paired(Chars(s))
  {
    if s == [] {
    } else if IsHigh(s[0]) && |s| > 1 && IsLow(s[1]) {
      CharsPaired(s[2..]);
      assert ([s[0], s[1]] + Chars(s[2..]))[2..] == Chars(s[2..]);
    } else {
      CharsPaired(s[1..]);
      PlainIsPaired(One(s[0]));
      PairedConcat(One(s[0]), Chars(s[1..]));
    }
  }

  lemma BracketedPaired(open: CodeUnit, body: Text, close: CodeUnit)
    requires Paired(body) && open < 0x80 && close < 0x80
    ensures Paired([open] + body + [close])
  {
    PlainIsPaired([open]);
    PlainIsPaired([close]);
    PairedConcat([open], body);
    PairedConcat([open] + body, [close]);
  }

  /** A rendered value is well-formed text. */
  lemma {:induction false} RenderPaired(v: Json)
    requires WellFormed(v)
    ensures Paired(Render(v))
    decreases v, 0
  {
    match v
    case Null => PlainIsPaired(NULL_TEXT);
    case Bool(flag) => PlainIsPaired(Render(v));
    case Number(literal) => PlainIsPaired(literal);
    case String(text) =>
      CharsPaired(text);
      BracketedPaired(QUOTE, Chars(text), QUOTE);
    case Array(items) =>
      ItemsPaired(items);
      BracketedPaired(OPEN_LIST, RenderItems(items), CLOSE_LIST);
    case Object(ms) =>
      MembersPaired(ms);
      BracketedPaired(OPEN_OBJECT, RenderMembers(ms), CLOSE_OBJECT);
  }

  lemma {:induction false} ItemsPaired(items: seq<Json>)
    requires forall i :: 0 <= i < |items| ==> WellFormed(items[i])
    ensures Paired(RenderItems(items))
    decreases items, 0
  {
    if items != [] {
      RenderPaired(items[0]);
      if |items| > 1 {
        ItemsPaired(items[1..]);
        PlainIsPaired([COMMA]);
        PairedConcat(Render(items[0]), [COMMA]);
        PairedConcat(Render(items[0]) + [COMMA], RenderItems(items[1..]));
      }
    }
  }

  lemma {:induction false} MemberPaired(m: Member)
    requires WellFormed(m.value)
    ensures Paired(RenderMember(m))
    decreases m, 0
  {
    CharsPaired(m.key);
    BracketedPaired(QUOTE, Chars(m.key), QUOTE);
    RenderPaired(m.value);
    PlainIsPaired([COLON]);
    PairedConcat(Quoted(m.key), [COLON]);
    PairedConcat(Quoted(m.key) + [COLON], Render(m.value));
  }

  lemma {:induction false} MembersPaired(ms: seq<Member>)
    requires forall i :: 0 <= i < |ms| ==> WellFormed(ms[i].value)
    ensures Paired(RenderMembers(ms))
    decreases ms, 0
  {
    if ms != [] {
      MemberPaired(ms[0]);
      if |ms| > 1 {
        MembersPaired(ms[1..]);
        PlainIsPaired([COMMA]);
        PairedConcat(RenderMember(ms[0]), [COMMA]);
        PairedConcat(RenderMember(ms[0]) + [COMMA], RenderMembers(ms[1..]));
      }
    }
  }

  /** The bytes of a rendered value are as many as its text counts. */
  lemma RenderedBytes(v: Json)
    requires WellFormed(v)
    ensures |Utf8(Render(v))| == ByteLength(Render(v))
  {
    RenderPaired(v);
    Utf8Size(Render(v));
  }

  // ---- The plan hash ----

  /** What a stored plan's hash covers. */
  datatype PlanIdentity =
    PlanIdentity(repositoryId: Text, fullName: Text, defaultBranch: Text, expectedHead: Option<Text>, payload: Json)

  /** The member names of the hashed object. */
  datatype PlanKeys = PlanKeys(repositoryId: Text, fullName: Text, defaultBranch: Text, expectedHead: Text, payload: Text)

  predicate DistinctNames(k: PlanKeys) {
    Distinct([k.repositoryId, k.fullName, k.defaultBranch, k.expectedHead, k.payload])
  }

  function HashedObject(k: PlanKeys, p: PlanIdentity): Json {
    Object([
      Member(k.repositoryId, String(p.repositoryId)),
      Member(k.fullName, String(p.fullName)),
      Member(k.defaultBranch, String(p.defaultBranch)),
      Member(k.expectedHead, if p.expectedHead.Some? then String(p.expectedHead.value) else Null),
      Member(k.payload, p.payload)])
  }

  /** The digest of the UTF-8 bytes of the stable rendering. */
  function PlanHash(k: PlanKeys, p: PlanIdentity, hash: B.Bytes -> string): string {
    hash(Utf8(StableJson(HashedObject(k, p))))
  }

  ghost predicate CollisionFree(hash: B.Bytes -> string) {
    forall a: B.Bytes, b: B.Bytes :: hash(a) == hash(b) ==> a == b
  }

  /** Stable renderings are told apart by their bytes. */
  lemma StableBytes(v: Json, w: Json)
    requires WellFormed(v) && WellFormed(w)
    ensures Utf8(StableJson(v)) == Utf8(StableJson(w)) <==> StableJson(v) == StableJson(w)
  {
    CanonWellFormed(v);
    CanonWellFormed(w);
    RenderPaired(Canon(v));
    RenderPaired(Canon(w));
    Utf8RoundTrip(StableJson(v));
    Utf8RoundTrip(StableJson(w));
  }

  predicate SamePlan(p: PlanIdentity, q: PlanIdentity) {
    p.repositoryId == q.repositoryId && p.fullName == q.fullName && p.defaultBranch == q.defaultBranch &&
    p.expectedHead == q.expectedHead && Equiv(p.payload, q.payload)
  }

  /** With distinct keys a member can only match the member of the same name. */
  lemma OnlyItsOwn(a: seq<Member>, b: seq<Member>, i: nat)
    requires |a| == |b| && i < |a| && DistinctKeys(b) && forall k :: 0 <= k < |a| ==> a[k].key == b[k].key
    ensures HasMember(b, a[i]) <==> Equiv(a[i].value, b[i].value)
  {
    if HasMember(b, a[i]) {
      var j :| 0 <= j < |b| && a[i].key == b[j].key && Equiv(a[i].value, b[j].value);
      assert j == i;
    }
  }

  lemma HashedKeys(k: PlanKeys, p: PlanIdentity, q: PlanIdentity)
    requires DistinctNames(k)
    ensures var a, b := HashedObject(k, p).members, HashedObject(k, q).members;
      DistinctKeys(a) && DistinctKeys(b) && forall i :: 0 <= i < 5 ==> a[i].key == b[i].key
  {
    var names := [k.repositoryId, k.fullName, k.defaultBranch, k.expectedHead, k.payload];
    assert forall i :: 0 <= i < 5 ==> HashedObject(k, p).members[i].key == names[i] == HashedObject(k, q).members[i].key;
  }

  lemma FiveMembers(a: seq<Member>, b: seq<Member>)
    requires |a| == |b| == 5 && DistinctKeys(b) && forall k :: 0 <= k < 5 ==> a[k].key == b[k].key
    ensures Equiv(Object(a), Object(b)) <==>
      Equiv(a[0].value, b[0].value) && Equiv(a[1].value, b[1].value) && Equiv(a[2].value, b[2].value) &&
      Equiv(a[3].value, b[3].value) && Equiv(a[4].value, b[4].value)
  {
    forall i: nat | i < 5 ensures HasMember(b, a[i]) <==> Equiv(a[i].value, b[i].value) {
      OnlyItsOwn(a, b, i);
    }
  }

  lemma ScalarEquiv(v: Json, w: Json)
    requires !v.Array? && !v.Object?
    ensures Equiv(v, w) <==> v == w
  {
  }

  lemma EquivPlans(k: PlanKeys, p: PlanIdentity, q: PlanIdentity)
    requires DistinctNames(k)
    ensures Equiv(HashedObject(k, p), HashedObject(k, q)) <==> SamePlan(p, q)
  {
    var a, b := HashedObject(k, p).members, HashedObject(k, q).members;
    HashedKeys(k, p, q);
    FiveMembers(a, b);
    ScalarEquiv(a[0].value, b[0].value);
    ScalarEquiv(a[1].value, b[1].value);
    ScalarEquiv(a[2].value, b[2].value);
    ScalarEquiv(a[3].value, b[3].value);
  }

  /** Binding: with a collision-free hash, two plans share a hash exactly when they are for the same
      repository, branch and head and carry the same payload up to key order. */
  lemma PlanHashBinds(k: PlanKeys, p: PlanIdentity, q: PlanIdentity, hash: B.Bytes -> string)
    requires DistinctNames(k) && CollisionFree(hash) && WellFormed(p.payload) && WellFormed(q.payload)
    ensures PlanHash(k, p, hash) == PlanHash(k, q, hash) <==> SamePlan(p, q)
  {
    var v, w := HashedObject(k, p), HashedObject(k, q);
    var names := [k.repositoryId, k.fullName, k.defaultBranch, k.expectedHead, k.payload];
    forall m | m in [v, w] ensures WellFormed(m) {
      assert forall i :: 0 <= i < 5 ==> m.members[i].key == names[i];
    }
    assert v in [v, w] && w in [v, w];
    EquivPlans(k, p, q);
    StableJsonInjective(v, w);
    StableBytes(v, w);
  }
}
