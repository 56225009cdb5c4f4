/** Base64 as the sandbox accepts it: decode, encode again and compare (RFC 4648, sections 3.5 and 4). */
module Base64 {
  import opened Common

  type byte = x: int | 0 <= x < 256
  type sextet = x: int | 0 <= x < 64
  type Bytes = seq<byte>

  function CharOf(v: sextet): char {
    if v < 26 then 'A' + v as char
    else if v < 52 then 'a' + (v - 26) as char
    else if v < 62 then '0' + (v - 52) as char
    else if v == 62 then '+' else '/'
  }

  predicate IsCode(c: char) {
    'A' <= c <= 'Z' || 'a' <= c <= 'z' || '0' <= c <= '9' || c == '+' || c == '/'
  }

  function ValueOf(c: char): sextet
    requires IsCode(c)
  {
    if 'A' <= c <= 'Z' then (c - 'A') as int
    else if 'a' <= c <= 'z' then (c - 'a') as int + 26
    else if '0' <= c <= '9' then (c - '0') as int + 52
    else if c == '+' then 62 else 63
  }

  // ---- Encoding: bytes to six-bit groups to characters ----

  function Six0(a: byte): sextet { a / 4 }
  function Six1(a: byte, b: byte): sextet { a % 4 * 16 + b / 16 }
  function Six2(b: byte, c: byte): sextet { b % 16 * 4 + c / 64 }
  function Six3(c: byte): sextet { c % 64 }

  function Byte0(p: sextet, q: sextet): byte { p * 4 + q / 16 }
  function Byte1(q: sextet, r: sextet): byte { q % 16 * 16 + r / 4 }
  function Byte2(r: sextet, s: sextet): byte { r % 4 * 64 + s }

  function Sextets(b: Bytes): seq<sextet> {
    if |b| == 0 then []
    else if |b| == 1 then [Six0(b[0]), Six1(b[0], 0)]
    else if |b| == 2 then [Six0(b[0]), Six1(b[0], b[1]), Six2(b[1], 0)]
    else [Six0(b[0]), Six1(b[0], b[1]), Six2(b[1], b[2]), Six3(b[2])] + Sextets(b[3..])
  }

  function Chars(s: seq<sextet>): string {
    seq(|s|, i requires 0 <= i < |s| => CharOf(s[i]))
  }

  function Padding(n: nat): string {
    if n % 4 == 2 then "==" else if n % 4 == 3 then "=" else ""
  }

  function Encode(b: Bytes): string {
    Chars(Sextets(b)) + Padding(|Sextets(b)|)
  }

  // ---- Decoding ----

  function PadCount(text: string): (n: nat)
    ensures n <= |text|
  {
    if |text| >= 1 && text[|text| - 1] == '=' then
      if |text| >= 2 && text[|text| - 2] == '=' then 2 else 1
    else 0
  }

  /** Whole groups of four code characters, the last of which may end in `==` or `=`. */
  predicate Shape(text: string) {
    |text| % 4 == 0 && forall i :: 0 <= i < |text| - PadCount(text) ==> IsCode(text[i])
  }

  function Values(text: string): seq<sextet>
    requires Shape(text)
  {
    seq(|text| - PadCount(text), i requires 0 <= i < |text| - PadCount(text) => ValueOf(text[i]))
  }

  /** The platform's decoder: the bits a final group leaves over are dropped unseen. */
  function Join(s: seq<sextet>): Bytes {
    if |s| < 2 then []
    else if |s| == 2 then [Byte0(s[0], s[1])]
    else if |s| == 3 then [Byte0(s[0], s[1]), Byte1(s[1], s[2])]
    else [Byte0(s[0], s[1]), Byte1(s[1], s[2]), Byte2(s[2], s[3])] + Join(s[4..])
  }

  datatype Base64Error = InvalidArtifactBase64

  function DecodeCanonical(text: string): Result<Bytes, Base64Error> {
    if |text| % 4 != 0 || !Shape(text) then Err(InvalidArtifactBase64)
    else
      var decoded := Join(Values(text));
      if Encode(decoded) != text then Err(InvalidArtifactBase64) else Ok(decoded)
  }

  // ---- Laws ----

  /** The bits a final partial group does not use are zero. */
  predicate ZeroPadBits(s: seq<sextet>) {
    if |s| < 2 then true
    else if |s| == 2 then s[1] % 16 == 0
    else if |s| == 3 then s[2] % 4 == 0
    else ZeroPadBits(s[4..])
  }

  lemma CodeInverse(c: char, v: sextet)
    ensures IsCode(c) ==> CharOf(ValueOf(c)) == c
    ensures IsCode(CharOf(v)) && ValueOf(CharOf(v)) == v
  {
  }

  lemma GroupOfSextets(p: sextet, q: sextet, r: sextet, s: sextet)
    ensures Six0(Byte0(p, q)) == p
    ensures Six1(Byte0(p, q), Byte1(q, r)) == q
    ensures Six2(Byte1(q, r), Byte2(r, s)) == r
    ensures Six3(Byte2(r, s)) == s
  {
  }

  lemma LeftoverBits(p: sextet, q: sextet, r: sextet)
    ensures Six1(Byte0(p, q), 0) == q <==> q % 16 == 0
    ensures Six2(Byte1(q, r), 0) == r <==> r % 4 == 0
  {
  }

  lemma GroupOfBytes(a: byte, b: byte, c: byte)
    ensures Byte0(Six0(a), Six1(a, b)) == a
    ensures Byte1(Six1(a, b), Six2(b, c)) == b
    ensures Byte2(Six2(b, c), Six3(c)) == c
    ensures Six1(a, 0) % 16 == 0 && Six2(b, 0) % 4 == 0
  {
  }

  lemma {:induction false} SextetsOfJoin(s: seq<sextet>)
    requires |s| % 4 != 1
    ensures Sextets(Join(s)) == s <==> ZeroPadBits(s)
    ensures |Sextets(Join(s))| == |s|
  {
    if |s| == 0 {
    } else if |s| == 2 {
      var p, q := s[0], s[1];
      assert s == [p, q];
      SextetsOfOne(p, q);
    } else if |s| == 3 {
      var p, q, r := s[0], s[1], s[2];
      assert s == [p, q, r];
      SextetsOfTwo(p, q, r);
    } else {
      var rest := s[4..];
      SextetsOfJoin(rest);
      assert s == [s[0], s[1], s[2], s[3]] + rest;
      SextetsOfGroup(s[0], s[1], s[2], s[3], rest);
    }
  }

  lemma SextetsOfOne(p: sextet, q: sextet)
    ensures Sextets(Join([p, q])) == [p, q] <==> q % 16 == 0
    ensures |Sextets(Join([p, q]))| == 2
  {
    var a, back := Byte0(p, q), Six1(Byte0(p, q), 0);
    assert Six0(a) == p by { GroupOfSextets(p, q, 0, 0); }
    assert back == q <==> q % 16 == 0 by { LeftoverBits(p, q, 0); }
    assert Join([p, q]) == [a];
    assert Sextets([a]) == [p, back];
    assert [p, back][1] == back && [p, q][1] == q;
  }

  lemma SextetsOfTwo(p: sextet, q: sextet, r: sextet)
    ensures Sextets(Join([p, q, r])) == [p, q, r] <==> r % 4 == 0
    ensures |Sextets(Join([p, q, r]))| == 3
  {
    var a, b, back := Byte0(p, q), Byte1(q, r), Six2(Byte1(q, r), 0);
    assert Six0(a) == p && Six1(a, b) == q by { GroupOfSextets(p, q, r, 0); }
    assert back == r <==> r % 4 == 0 by { LeftoverBits(p, q, r); }
    assert Join([p, q, r]) == [a, b];
    assert Sextets([a, b]) == [p, q, back];
    assert [p, q, back][2] == back && [p, q, r][2] == r;
  }

  lemma SextetsOfGroup(p: sextet, q: sextet, r: sextet, t: sextet, rest: seq<sextet>)
    ensures Sextets(Join([p, q, r, t] + rest)) == [p, q, r, t] + Sextets(Join(rest))
  {
    var s, tail := [p, q, r, t] + rest, Join(rest);
    var a, b, c := Byte0(p, q), Byte1(q, r), Byte2(r, t);
    assert Six0(a) == p && Six1(a, b) == q && Six2(b, c) == r && Six3(c) == t by { GroupOfSextets(p, q, r, t); }
    assert s[4..] == rest;
    assert Join(s) == [a, b, c] + tail;
    assert ([a, b, c] + tail)[3..] == tail;
    assert Sextets([a, b, c] + tail) == [p, q, r, t] + Sextets(tail);
  }

  lemma {:induction false} JoinOfSextets(b: Bytes)
    ensures Join(Sextets(b)) == b
    ensures ZeroPadBits(Sextets(b))
  {
    if |b| == 0 {
    } else if |b| == 1 {
      var a := b[0];
      assert b == [a];
      JoinOfOne(a);
      assert Six1(a, 0) % 16 == 0 by { GroupOfBytes(a, 0, 0); }
    } else if |b| == 2 {
      JoinOfTwo(b[0], b[1]);
      assert b == [b[0], b[1]];
    } else {
      JoinOfGroup(b[0], b[1], b[2], b[3..]);
      assert b == [b[0], b[1], b[2]] + b[3..];
      JoinOfSextets(b[3..]);
    }
  }

  lemma {:induction false} SextetsLength(b: Bytes)
    ensures |Sextets(b)| == |b| / 3 * 4 + (if |b| % 3 == 0 then 0 else |b| % 3 + 1)
  {
    if |b| >= 3 { SextetsLength(b[3..]); }
  }

  lemma JoinOfOne(a: byte)
    ensures Sextets([a]) == [Six0(a), Six1(a, 0)]
    ensures Join(Sextets([a])) == [a]
  {
    var p, q := Six0(a), Six1(a, 0);
    assert Byte0(p, q) == a by { GroupOfBytes(a, 0, 0); }
    assert Join([p, q]) == [a];
  }

  lemma JoinOfTwo(a: byte, b: byte)
    ensures Sextets([a, b]) == [Six0(a), Six1(a, b), Six2(b, 0)]
    ensures Join(Sextets([a, b])) == [a, b] && Six2(b, 0) % 4 == 0
  {
    var p, q, r := Six0(a), Six1(a, b), Six2(b, 0);
    assert Byte0(p, q) == a && Byte1(q, r) == b && r % 4 == 0 by { GroupOfBytes(a, b, 0); }
    assert Sextets([a, b]) == [p, q, r];
    assert Join([p, q, r]) == [a, b];
  }

  lemma JoinOfGroup(a: byte, b: byte, c: byte, rest: Bytes)
    ensures Join(Sextets([a, b, c] + rest)) == [a, b, c] + Join(Sextets(rest))
    ensures ZeroPadBits(Sextets([a, b, c] + rest)) == ZeroPadBits(Sextets(rest))
  {
    var whole, tail := [a, b, c] + rest, Sextets(rest);
    var p, q, r, t := Six0(a), Six1(a, b), Six2(b, c), Six3(c);
    assert Byte0(p, q) == a && Byte1(q, r) == b && Byte2(r, t) == c by { GroupOfBytes(a, b, c); }
    assert whole[3..] == rest;
    assert Sextets(whole) == [p, q, r, t] + tail;
    var s := [p, q, r, t] + tail;
    assert s[4..] == tail;
    assert Join(s) == [a, b, c] + Join(tail);
  }

  /** Text of the right shape is its values' characters and padding, and no other values give that text. */
  lemma CharsOfValues(text: string, s: seq<sextet>)
    requires Shape(text) && |s| == |Values(text)|
    ensures Chars(s) + Padding(|s|) == text <==> s == Values(text)
  {
    forall i | 0 <= i < |s| ensures Chars(s)[i] == text[i] <==> s[i] == Values(text)[i] {
      CodeInverse(text[i], s[i]);
    }
    var whole := Chars(s) + Padding(|s|);
    assert |whole| == |text| && forall i :: |s| <= i < |text| ==> whole[i] == '=' == text[i];
    if whole == text {
      forall i | 0 <= i < |s| ensures s[i] == Values(text)[i] {
        assert whole[i] == Chars(s)[i];
      }
    }
  }

  lemma PaddingLength(b: Bytes)
    ensures |Sextets(b)| % 4 != 1
    ensures |Encode(b)| == (|b| + 2) / 3 * 4
  {
    SextetsLength(b);
    hide Sextets;
    var q, r := |b| / 3, |b| % 3;
    assert (|b| + 2) / 3 == q + (if r == 0 then 0 else 1);
  }

  lemma CharsAreCodes(s: seq<sextet>, i: nat)
    requires i < |s|
    ensures IsCode(Chars(s)[i]) && ValueOf(Chars(s)[i]) == s[i]
  {
    CodeInverse('A', s[i]);
  }

  lemma PadOfText(s: seq<sextet>, text: string)
    requires text == Chars(s) + Padding(|s|) && |s| % 4 != 1
    ensures PadCount(text) == |Padding(|s|)| && |text| % 4 == 0
  {
    if |s| > 0 { CharsAreCodes(s, |s| - 1); }
  }

  lemma ShapeOfEncode(b: Bytes)
    ensures Shape(Encode(b)) && Values(Encode(b)) == Sextets(b)
  {
    var s, text := Sextets(b), Encode(b);
    PaddingLength(b);
    PadOfText(s, text);
    forall i: nat | i < |s| ensures IsCode(text[i]) && ValueOf(text[i]) == s[i] {
      CharsAreCodes(s, i);
      assert text[i] == Chars(s)[i];
    }
  }

  /** A text is accepted exactly when it has the shape and its unused bits are zero. */
  lemma AcceptedTexts(text: string)
    ensures DecodeCanonical(text).Ok? <==> Shape(text) && ZeroPadBits(Values(text))
  {
    if Shape(text) {
      var s := Values(text);
      SextetsOfJoin(s);
      CharsOfValues(text, Sextets(Join(s)));
    }
  }

  /** Decoding inverts encoding on every byte string, and the accepted texts are exactly the encodings. */
  lemma RoundTrip(b: Bytes, text: string)
    ensures DecodeCanonical(Encode(b)) == Ok(b)
    ensures DecodeCanonical(text) == Ok(b) <==> text == Encode(b)
    ensures |Encode(b)| == (|b| + 2) / 3 * 4
  {
    ShapeOfEncode(b);
    JoinOfSextets(b);
    PaddingLength(b);
  }
}
