/** The opaque match-list cursor: JSON text, encoded as UTF-8 and then as unpadded base64url. */
module CursorCodec {
  import opened Basics

  /** A JavaScript string is a sequence of UTF-16 code units. */
  type CodeUnit = u: int | 0 <= u < 0x10000
  type Byte = u: int | 0 <= u < 0x100
  type Sextet = u: int | 0 <= u < 64
  type Text = seq<CodeUnit>

  datatype Cursor = Cursor(b: int, s: real, id: Text)

  /** How the engine prints and reads numbers: `doubles` are the values a number can have. */
  datatype Numbers = Numbers(doubles: iset<real>, show: real -> Text, read: Text -> Option<real>)

  predicate NumberUnit(u: CodeUnit) {
    0x30 <= u <= 0x39 || u == 0x2b || u == 0x2d || u == 0x2e || u == 0x45 || u == 0x65
  }

  /** Printing a number and reading it back gives the number; the text uses `0-9 + - . e E` only. */
  ghost predicate NumbersRoundTrip(nums: Numbers) {
    && 0.0 in nums.doubles && 1.0 in nums.doubles
    && forall x | x in nums.doubles ::
         && nums.read(nums.show(x)) == Some(x)
         && nums.show(x) != []
         && forall i | 0 <= i < |nums.show(x)| :: NumberUnit(nums.show(x)[i])
  }

  // ---- JSON strings (section 7 of RFC 8259)

  const QUOTE: CodeUnit := 0x22
  const BACKSLASH: CodeUnit := 0x5c
  const COMMA: CodeUnit := 0x2c
  const COLON: CodeUnit := 0x3a
  const OPEN: CodeUnit := 0x7b
  const CLOSE: CodeUnit := 0x7d

  predicate High(u: CodeUnit) { 0xd800 <= u < 0xdc00 }

  predicate Low(u: CodeUnit) { 0xdc00 <= u < 0xe000 }

  predicate StartsWithPair(t: Text) { |t| >= 2 && High(t[0]) && Low(t[1]) }

  function HexDigit(v: int): CodeUnit
    requires 0 <= v < 16
  {
    if v < 10 then 0x30 + v else 0x57 + v
  }

  function HexValue(u: CodeUnit): (r: Option<int>)
    ensures r.Some? ==> 0 <= r.value < 16
  {
    if 0x30 <= u <= 0x39 then Some(u - 0x30)
    else if 0x61 <= u <= 0x66 then Some(u - 0x57)
    else if 0x41 <= u <= 0x46 then Some(u - 0x37)
    else None
  }

  function EscapeUnit(u: CodeUnit): Text {
    if u == QUOTE || u == BACKSLASH then [BACKSLASH, u]
    else if u == 8 then [BACKSLASH, 0x62]
    else if u == 9 then [BACKSLASH, 0x74]
    else if u == 10 then [BACKSLASH, 0x6e]
    else if u == 12 then [BACKSLASH, 0x66]
    else if u == 13 then [BACKSLASH, 0x72]
    else if u < 0x20 || High(u) || Low(u) then
      [BACKSLASH, 0x75, HexDigit(u / 4096), HexDigit(u / 256 % 16), HexDigit(u / 16 % 16), HexDigit(u % 16)]
    else [u]
  }

  /** `JSON.stringify` of a string without its quotes: surrogate pairs are copied, lone surrogates escaped. */
  function Escape(s: Text): Text {
    if s == [] then []
    else if StartsWithPair(s) then s[..2] + Escape(s[2..])
    else EscapeUnit(s[0]) + Escape(s[1..])
  }

  function Prepend(u: CodeUnit, r: Option<(Text, Text)>): Option<(Text, Text)> {
    match r
    case None => None
    case Some((s, rest)) => Some(([u] + s, rest))
  }

  function PrependUnits(us: Text, r: Option<(Text, Text)>): Option<(Text, Text)> {
    if us == [] then r else Prepend(us[0], PrependUnits(us[1..], r))
  }

  lemma PrependPair(us: Text, r: Option<(Text, Text)>)
    requires |us| >= 2
    ensures PrependUnits(us, r) == Prepend(us[0], Prepend(us[1], PrependUnits(us[2..], r)))
  {
    assert us[1..][1..] == us[2..];
  }

  lemma {:induction false} PrependAllUnits(us: Text, rest: Text)
    ensures PrependUnits(us, Some(([], rest))) == Some((us, rest))
  {
    if us != [] {
      PrependAllUnits(us[1..], rest);
      assert us == [us[0]] + us[1..];
    }
  }

  function UnescapeSimple(u: CodeUnit): Option<CodeUnit> {
    if u == QUOTE || u == BACKSLASH || u == 0x2f then Some(u)
    else if u == 0x62 then Some(8)
    else if u == 0x74 then Some(9)
    else if u == 0x6e then Some(10)
    else if u == 0x66 then Some(12)
    else if u == 0x72 then Some(13)
    else None
  }

  function UnescapeHex(t: Text): Option<CodeUnit>
    requires |t| == 4
  {
    var (a, b, c, d) := (HexValue(t[0]), HexValue(t[1]), HexValue(t[2]), HexValue(t[3]));
    if a.None? || b.None? || c.None? || d.None? then None
    else Some(((a.value * 16 + b.value) * 16 + c.value) * 16 + d.value)
  }

  /** The characters of a string up to its closing quote, and what follows the quote. */
  function ParseChars(t: Text): (r: Option<(Text, Text)>)
    ensures r.Some? ==> |r.value.1| < |t|
  {
    if t == [] || t[0] < 0x20 then None
    else if t[0] == QUOTE then Some(([], t[1..]))
    else if t[0] != BACKSLASH then Prepend(t[0], ParseChars(t[1..]))
    else if |t| >= 6 && t[1] == 0x75 then
      match UnescapeHex(t[2..6])
      case None => None
      case Some(u) => Prepend(u, ParseChars(t[6..]))
    else if |t| >= 2 then
      match UnescapeSimple(t[1])
      case None => None
      case Some(u) => Prepend(u, ParseChars(t[2..]))
    else None
  }

  function Quoted(s: Text): Text { [QUOTE] + Escape(s) + [QUOTE] }

  function ParseString(t: Text): (r: Option<(Text, Text)>)
    ensures r.Some? ==> |r.value.1| < |t|
  {
    if t != [] && t[0] == QUOTE then ParseChars(t[1..]) else None
  }

  lemma HexDigitRoundTrip(v: int)
    requires 0 <= v < 16
    ensures HexValue(HexDigit(v)) == Some(v)
  {}

  lemma HexRoundTrip(u: CodeUnit)
    ensures
      UnescapeHex([HexDigit(u / 4096), HexDigit(u / 256 % 16), HexDigit(u / 16 % 16), HexDigit(u % 16)]) == Some(u)
  {
    var q1 := u / 16;
    var q2 := q1 / 16;
    assert q2 == u / 256 && q2 / 16 == u / 4096;
    HexDigitRoundTrip(q2 / 16);
    HexDigitRoundTrip(q2 % 16);
    HexDigitRoundTrip(q1 % 16);
    HexDigitRoundTrip(u % 16);
  }

  lemma ParseHexUnit(u: CodeUnit, h: Text, rest: Text)
    requires |h| == 4 && UnescapeHex(h) == Some(u)
    ensures ParseChars([BACKSLASH, 0x75] + h + rest) == Prepend(u, ParseChars(rest))
  {
    var t := [BACKSLASH, 0x75] + h + rest;
    assert t[2..6] == h && t[6..] == rest;
  }

  lemma ParseSimpleUnit(u: CodeUnit, code: CodeUnit, rest: Text)
    requires UnescapeSimple(code) == Some(u)
    ensures ParseChars([BACKSLASH, code] + rest) == Prepend(u, ParseChars(rest))
  {
    assert ([BACKSLASH, code] + rest)[2..] == rest;
  }

  lemma ParseLiteralUnit(u: CodeUnit, rest: Text)
    requires u >= 0x20 && u != QUOTE && u != BACKSLASH
    ensures ParseChars([u] + rest) == Prepend(u, ParseChars(rest))
  {
    assert ([u] + rest)[1..] == rest;
  }

  lemma ParseEscapedUnit(u: CodeUnit, rest: Text)
    ensures ParseChars(EscapeUnit(u) + rest) == Prepend(u, ParseChars(rest))
  {
    var e := EscapeUnit(u);
    if |e| == 1 {
      ParseLiteralUnit(u, rest);
    } else if |e| == 2 {
      ParseSimpleUnit(u, e[1], rest);
    } else {
      HexRoundTrip(u);
      ParseHexUnit(u, e[2..], rest);
      assert e == [BACKSLASH, 0x75] + e[2..];
    }
  }

  lemma ParseLiteralPair(h: CodeUnit, l: CodeUnit, rest: Text)
    requires High(h) && Low(l)
    ensures ParseChars([h, l] + rest) == Prepend(h, Prepend(l, ParseChars(rest)))
  {
    ParseLiteralUnit(l, rest);
    ParseLiteralUnit(h, [l] + rest);
    assert [h, l] + rest == [h] + ([l] + rest);
  }

  lemma AppendAssociates(a: Text, b: Text, c: Text)
    ensures (a + b) + c == a + (b + c)
  {}

  /** What reading an escaped string does, one leading unit or pair at a time. */
  lemma {:induction false} ParseEscaped(s: Text, rest: Text)
    ensures ParseChars(Escape(s) + rest) == PrependUnits(s, ParseChars(rest))
    decreases |s|
  {
    if s == [] {
      assert Escape(s) + rest == rest;
    } else if StartsWithPair(s) {
      ParseEscaped(s[2..], rest);
      ParseLiteralPair(s[0], s[1], Escape(s[2..]) + rest);
      assert s[..2] == [s[0], s[1]];
      AppendAssociates(s[..2], Escape(s[2..]), rest);
      PrependPair(s, ParseChars(rest));
    } else {
      ParseEscaped(s[1..], rest);
      ParseEscapedUnit(s[0], Escape(s[1..]) + rest);
      AppendAssociates(EscapeUnit(s[0]), Escape(s[1..]), rest);
    }
  }

  lemma QuotedTail(e: Text, rest: Text)
    ensures ([QUOTE] + e + [QUOTE] + rest)[1..] == e + ([QUOTE] + rest)
  {}

  lemma ParseQuoted(s: Text, rest: Text)
    ensures ParseString(Quoted(s) + rest) == Some((s, rest))
  {
    ParseEscaped(s, [QUOTE] + rest);
    PrependAllUnits(s, rest);
    assert ParseChars([QUOTE] + rest) == Some(([], rest)) by {
      assert ([QUOTE] + rest)[1..] == rest;
    }
    QuotedTail(Escape(s), rest);
  }

  // ---- UTF-8

  predicate WellFormed(t: Text) {
    if t == [] then true
    else if StartsWithPair(t) then WellFormed(t[2..])
    else !High(t[0]) && !Low(t[0]) && WellFormed(t[1..])
  }

  function CodePoint(h: int, l: int): int { 0x10000 + (h - 0xd800) * 0x400 + (l - 0xdc00) }

  function Utf8Unit(u: CodeUnit): seq<Byte> {
    if u < 0x80 then [u]
    else if u < 0x800 then [0xc0 + u / 64, 0x80 + u % 64]
    else [0xe0 + u / 0x1000, 0x80 + u / 64 % 64, 0x80 + u % 64]
  }

  function Utf8Pair(h: CodeUnit, l: CodeUnit): seq<Byte>
    requires High(h) && Low(l)
  {
    var cp := CodePoint(h, l);
    [0xf0 + cp / 0x40000, 0x80 + cp / 0x1000 % 64, 0x80 + cp / 64 % 64, 0x80 + cp % 64]
  }

  /** A lone surrogate becomes U+FFFD, as in `Buffer.from`. */
  function Utf8(t: Text): seq<Byte> {
    if t == [] then []
    else if StartsWithPair(t) then Utf8Pair(t[0], t[1]) + Utf8(t[2..])
    else Utf8Unit(if High(t[0]) || Low(t[0]) then 0xfffd else t[0]) + Utf8(t[1..])
  }

  predicate Continues(bs: seq<Byte>, n: nat) {
    |bs| > n && forall i | 1 <= i <= n :: 0x80 <= bs[i] < 0xc0
  }

  /** The code units of the first character of the bytes, and how many bytes it takes. */
  function FirstCharacter(bs: seq<Byte>): (r: Option<(Text, nat)>)
    ensures r.Some? ==> 0 < r.value.1 <= |bs|
  {
    if bs == [] then None
    else if bs[0] < 0x80 then Some(([bs[0] as int], 1))
    else if 0xc2 <= bs[0] < 0xe0 && Continues(bs, 1) then Some(([Join(bs[0] - 0xc0, bs[1])], 2))
    else if 0xe0 <= bs[0] < 0xf0 && Continues(bs, 2) then
      var u := Join(Join(bs[0] - 0xe0, bs[1]), bs[2]);
      if u < 0x800 || High(u) || Low(u) then None else Some(([u], 3))
    else if 0xf0 <= bs[0] < 0xf5 && Continues(bs, 3) then
      var cp := Join(Join(Join(bs[0] - 0xf0, bs[1]), bs[2]), bs[3]);
      if !(0x10000 <= cp < 0x110000) then None
      else Some(([0xd800 + (cp - 0x10000) / 0x400, 0xdc00 + (cp - 0x10000) % 0x400], 4))
    else None
  }

  function Join(high: int, continuation: int): int { high * 64 + (continuation - 0x80) }

  /** Reads well-formed UTF-8; malformed bytes give None. */
  function FromUtf8(bs: seq<Byte>): Option<Text> {
    if bs == [] then Some([])
    else match FirstCharacter(bs)
      case None => None
      case Some((us, n)) => match FromUtf8(bs[n..]) case None => None case Some(t) => Some(us + t)
  }

  lemma OneByteCharacter(u: CodeUnit, rest: seq<Byte>)
    requires u < 0x80
    ensures FirstCharacter(Utf8Unit(u) + rest) == Some(([u], |Utf8Unit(u)|))
  {}

  lemma TwoByteCharacter(u: CodeUnit, rest: seq<Byte>)
    requires 0x80 <= u < 0x800
    ensures FirstCharacter(Utf8Unit(u) + rest) == Some(([u], |Utf8Unit(u)|))
  {
    var bs := Utf8Unit(u) + rest;
    assert bs[0] == 0xc0 + u / 64 && bs[1] == 0x80 + u % 64;
    assert Continues(bs, 1);
  }

  lemma ThreeByteCharacter(u: CodeUnit, rest: seq<Byte>)
    requires 0x800 <= u && !High(u) && !Low(u)
    ensures FirstCharacter(Utf8Unit(u) + rest) == Some(([u], |Utf8Unit(u)|))
  {
    var bs := Utf8Unit(u) + rest;
    assert bs[0] == 0xe0 + u / 0x1000 && bs[1] == 0x80 + u / 64 % 64 && bs[2] == 0x80 + u % 64;
    assert Continues(bs, 2);
    assert u / 64 == Join(u / 0x1000, 0x80 + u / 64 % 64);
  }

  lemma FirstCharacterOfUnit(u: CodeUnit, rest: seq<Byte>)
    requires !High(u) && !Low(u)
    ensures FirstCharacter(Utf8Unit(u) + rest) == Some(([u], |Utf8Unit(u)|))
  {
    if u < 0x80 {
      OneByteCharacter(u, rest);
    } else if u < 0x800 {
      TwoByteCharacter(u, rest);
    } else {
      ThreeByteCharacter(u, rest);
    }
  }

  lemma JoinFourBytes(cp: int)
    requires 0x10000 <= cp < 0x110000
    ensures
      Join(Join(Join(cp / 0x40000, 0x80 + cp / 0x1000 % 64), 0x80 + cp / 64 % 64), 0x80 + cp % 64) == cp
  {
    assert cp / 0x1000 == Join(cp / 0x40000, 0x80 + cp / 0x1000 % 64);
    assert cp / 64 == Join(cp / 0x1000, 0x80 + cp / 64 % 64);
  }

  lemma PairBytes(h: CodeUnit, l: CodeUnit, rest: seq<Byte>)
    requires High(h) && Low(l)
    ensures
      var (cp, bs) := (CodePoint(h, l), Utf8Pair(h, l) + rest);
      && 0x10000 <= cp < 0x110000 && |Utf8Pair(h, l)| == 4
      && bs[0] == 0xf0 + cp / 0x40000 && bs[1] == 0x80 + cp / 0x1000 % 64
      && bs[2] == 0x80 + cp / 64 % 64 && bs[3] == 0x80 + cp % 64
  {}

  lemma FirstCharacterOfPair(h: CodeUnit, l: CodeUnit, rest: seq<Byte>)
    requires High(h) && Low(l)
    ensures FirstCharacter(Utf8Pair(h, l) + rest) == Some(([h, l], 4))
  {
    PairBytes(h, l, rest);
    ReadFourBytes(Utf8Pair(h, l) + rest, CodePoint(h, l));
    PairOfCodePoint(h, l);
  }

  lemma PairOfCodePoint(h: CodeUnit, l: CodeUnit)
    requires High(h) && Low(l)
    ensures
      var cp := CodePoint(h, l);
      0xd800 + (cp - 0x10000) / 0x400 == h && 0xdc00 + (cp - 0x10000) % 0x400 == l
  {}

  lemma ReadFourBytes(bs: seq<Byte>, cp: int)
    requires |bs| >= 4 && 0x10000 <= cp < 0x110000
    requires bs[0] == 0xf0 + cp / 0x40000 && bs[1] == 0x80 + cp / 0x1000 % 64
    requires bs[2] == 0x80 + cp / 64 % 64 && bs[3] == 0x80 + cp % 64
    ensures FirstCharacter(bs) == Some(([0xd800 + (cp - 0x10000) / 0x400, 0xdc00 + (cp - 0x10000) % 0x400], 4))
  {
    JoinFourBytes(cp);
    assert Continues(bs, 3);
  }

  lemma {:induction false} Utf8RoundTrip(t: Text)
    requires WellFormed(t)
    ensures FromUtf8(Utf8(t)) == Some(t)
    decreases |t|
  {
    var bs := Utf8(t);
    if t == [] {
    } else if StartsWithPair(t) {
      Utf8RoundTrip(t[2..]);
      FirstCharacterOfPair(t[0], t[1], Utf8(t[2..]));
      assert bs[4..] == Utf8(t[2..]);
      assert t == [t[0], t[1]] + t[2..];
    } else {
      Utf8RoundTrip(t[1..]);
      FirstCharacterOfUnit(t[0], Utf8(t[1..]));
      assert bs[|Utf8Unit(t[0])|..] == Utf8(t[1..]);
      assert t == [t[0]] + t[1..];
    }
  }

  lemma {:induction false} WellFormedAppend(s: Text, t: Text)
    requires WellFormed(s) && WellFormed(t)
    ensures WellFormed(s + t)
    decreases |s|
  {
    if s == [] {
      assert s + t == t;
    } else if StartsWithPair(s) {
      WellFormedAppend(s[2..], t);
      assert (s + t)[2..] == s[2..] + t;
    } else {
      WellFormedAppend(s[1..], t);
      assert (s + t)[1..] == s[1..] + t;
    }
  }

  lemma {:induction false} PlainIsWellFormed(t: Text)
    requires forall i | 0 <= i < |t| :: !High(t[i]) && !Low(t[i])
    ensures WellFormed(t)
  {
    if t != [] {
      PlainIsWellFormed(t[1..]);
    }
  }

  /** `JSON.stringify` never emits a lone surrogate, so no cursor text is damaged by UTF-8. */
  lemma {:induction false} EscapeIsWellFormed(s: Text)
    ensures WellFormed(Escape(s))
    decreases |s|
  {
    if s == [] {
    } else if StartsWithPair(s) {
      EscapeIsWellFormed(s[2..]);
      assert Escape(s)[2..] == Escape(s[2..]);
    } else {
      EscapeIsWellFormed(s[1..]);
      PlainIsWellFormed(EscapeUnit(s[0]));
      WellFormedAppend(EscapeUnit(s[0]), Escape(s[1..]));
    }
  }

  // ---- base64url without padding (section 5 of RFC 4648)

  function Base64Char(v: Sextet): char {
    if v < 26 then 'A' + v as char
    else if v < 52 then 'a' + (v - 26) as char
    else if v < 62 then '0' + (v - 52) as char
    else if v == 62 then '-' else '_'
  }

  function Base64Value(c: char): Option<Sextet> {
    if 'A' <= c <= 'Z' then Some((c - 'A') as int)
    else if 'a' <= c <= 'z' then Some((c - 'a') as int + 26)
    else if '0' <= c <= '9' then Some((c - '0') as int + 52)
    else if c == '-' then Some(62)
    else if c == '_' then Some(63)
    else None
  }

  function Sextets(bs: seq<Byte>): seq<Sextet> {
    if bs == [] then []
    else if |bs| == 1 then [bs[0] / 4, bs[0] % 4 * 16]
    else if |bs| == 2 then [bs[0] / 4, bs[0] % 4 * 16 + bs[1] / 16, bs[1] % 16 * 4]
    else [bs[0] / 4, bs[0] % 4 * 16 + bs[1] / 16, bs[1] % 16 * 4 + bs[2] / 64, bs[2] % 64] + Sextets(bs[3..])
  }

  function Byte0(a: int, b: int): int { a * 4 + b / 16 }

  function Byte1(b: int, c: int): int { b % 16 * 16 + c / 4 }

  function Byte2(c: int, d: int): int { c % 4 * 64 + d }

  function FromSextets(vs: seq<Sextet>): seq<Byte> {
    if |vs| < 2 then []
    else if |vs| == 2 then [Byte0(vs[0], vs[1])]
    else if |vs| == 3 then [Byte0(vs[0], vs[1]), Byte1(vs[1], vs[2])]
    else [Byte0(vs[0], vs[1]), Byte1(vs[1], vs[2]), Byte2(vs[2], vs[3])] + FromSextets(vs[4..])
  }

  function Base64(bs: seq<Byte>): string {
    var vs := Sextets(bs);
    seq(|vs|, i requires 0 <= i < |vs| => Base64Char(vs[i]))
  }

  function CharValues(raw: string): Option<seq<Sextet>> {
    if raw == "" then Some([])
    else match (Base64Value(raw[0]), CharValues(raw[1..]))
      case (Some(v), Some(vs)) => Some([v] + vs)
      case _ => None
  }

  lemma GroupRoundTrip(x: Byte, y: Byte, z: Byte)
    ensures Byte0(x / 4, x % 4 * 16 + y / 16) == x
    ensures Byte1(x % 4 * 16 + y / 16, y % 16 * 4 + z / 64) == y
    ensures Byte2(y % 16 * 4 + z / 64, z % 64) == z
  {}

  lemma {:induction false} SextetsRoundTrip(bs: seq<Byte>)
    ensures FromSextets(Sextets(bs)) == bs
    decreases |bs|
  {
    if |bs| == 1 {
      GroupRoundTrip(bs[0], 0, 0);
    } else if |bs| == 2 {
      GroupRoundTrip(bs[0], bs[1], 0);
    } else if |bs| >= 3 {
      GroupRoundTrip(bs[0], bs[1], bs[2]);
      SextetsRoundTrip(bs[3..]);
      assert Sextets(bs)[4..] == Sextets(bs[3..]);
      assert bs == bs[..3] + bs[3..];
    }
  }

  lemma {:induction false} CharValuesRoundTrip(raw: string, vs: seq<Sextet>)
    requires |raw| == |vs| && forall i | 0 <= i < |vs| :: raw[i] == Base64Char(vs[i])
    ensures CharValues(raw) == Some(vs)
  {
    if vs != [] {
      CharValuesRoundTrip(raw[1..], vs[1..]);
      assert Base64Value(raw[0]) == Some(vs[0]);
      assert vs == [vs[0]] + vs[1..];
    }
  }

  function FromBase64(raw: string): Option<seq<Byte>> {
    match CharValues(raw) case None => None case Some(vs) => Some(FromSextets(vs))
  }

  lemma Base64RoundTrip(bs: seq<Byte>)
    ensures FromBase64(Base64(bs)) == Some(bs)
  {
    CharValuesRoundTrip(Base64(bs), Sextets(bs));
    SextetsRoundTrip(bs);
  }

  // ---- the cursor itself

  datatype Json = JNumber(n: real) | JString(s: Text)

  function NumberLength(t: Text): (n: nat)
    ensures n <= |t|
  {
    if t != [] && NumberUnit(t[0]) then 1 + NumberLength(t[1..]) else 0
  }

  function ParseValue(nums: Numbers, t: Text): (r: Option<(Json, Text)>)
    ensures r.Some? ==> |r.value.1| <= |t|
  {
    if t != [] && t[0] == QUOTE then
      match ParseString(t) case None => None case Some((s, rest)) => Some((JString(s), rest))
    else
      var n := NumberLength(t);
      match nums.read(t[..n]) case None => None case Some(x) => Some((JNumber(x), t[n..]))
  }

  /** The members of a flat object, from after `{` or `,` to the end of the text; a later duplicate wins. */
  function ParseMembers(nums: Numbers, t: Text, acc: map<Text, Json>): Option<map<Text, Json>>
    decreases |t|
  {
    match ParseString(t)
    case None => None
    case Some((key, afterKey)) =>
      if afterKey == [] || afterKey[0] != COLON then None
      else match ParseValue(nums, afterKey[1..])
        case None => None
        case Some((v, rest)) =>
          if rest == [CLOSE] then Some(acc[key := v])
          else if rest != [] && rest[0] == COMMA then ParseMembers(nums, rest[1..], acc[key := v])
          else None
  }

  const KEY_B: Text := [0x62]
  const KEY_S: Text := [0x73]
  const KEY_ID: Text := [0x69, 0x64]

  function Member(key: Text, value: Text): Text { Quoted(key) + [COLON] + value }

  /** `JSON.stringify({ b, s, id })`. */
  function Stringify(nums: Numbers, c: Cursor): Text {
    [OPEN] + Member(KEY_B, nums.show(c.b as real))
    + [COMMA] + Member(KEY_S, nums.show(c.s))
    + [COMMA] + Member(KEY_ID, Quoted(c.id)) + [CLOSE]
  }

  function Encode(nums: Numbers, c: Cursor): string { Base64(Utf8(Stringify(nums, c))) }

  /** The checks `decodeMatchListCursor` makes on the parsed object. */
  function FromMembers(m: map<Text, Json>): (r: Option<Cursor>)
    ensures r.Some? ==> r.value.b in {0, 1} && r.value.id != []
  {
    if KEY_B in m && KEY_S in m && KEY_ID in m
       && (m[KEY_B] == JNumber(0.0) || m[KEY_B] == JNumber(1.0))
       && m[KEY_S].JNumber? && m[KEY_ID].JString? && m[KEY_ID].s != []
    then Some(Cursor(if m[KEY_B].n == 0.0 then 0 else 1, m[KEY_S].n, m[KEY_ID].s))
    else None
  }

  function ParseCursor(nums: Numbers, t: Text): Option<Cursor> {
    if t == [] || t[0] != OPEN then None
    else match ParseMembers(nums, t[1..], map[]) case None => None case Some(m) => FromMembers(m)
  }

  function Decode(nums: Numbers, raw: string): (r: Option<Cursor>)
    ensures r.Some? ==> r.value.b in {0, 1} && r.value.id != []
  {
    match FromBase64(raw)
    case None => None
    case Some(bs) => match FromUtf8(bs) case None => None case Some(t) => ParseCursor(nums, t)
  }

  lemma {:induction false} NumberLengthOf(digits: Text, rest: Text)
    requires forall i | 0 <= i < |digits| :: NumberUnit(digits[i])
    requires rest == [] || !NumberUnit(rest[0])
    ensures NumberLength(digits + rest) == |digits|
  {
    if digits == [] {
      assert digits + rest == rest;
    } else {
      NumberLengthOf(digits[1..], rest);
      assert (digits + rest)[1..] == digits[1..] + rest;
    }
  }

  lemma ParseNumberValue(nums: Numbers, x: real, rest: Text)
    requires NumbersRoundTrip(nums) && x in nums.doubles
    requires rest == [] || !NumberUnit(rest[0])
    ensures ParseValue(nums, nums.show(x) + rest) == Some((JNumber(x), rest))
  {
    var t := nums.show(x) + rest;
    NumberLengthOf(nums.show(x), rest);
    assert nums.read(nums.show(x)) == Some(x);
    assert t[..|nums.show(x)|] == nums.show(x) && t[|nums.show(x)|..] == rest;
  }

  lemma ParseStringValue(nums: Numbers, s: Text, rest: Text)
    ensures ParseValue(nums, Quoted(s) + rest) == Some((JString(s), rest))
  {
    ParseQuoted(s, rest);
    assert (Quoted(s) + rest)[0] == QUOTE;
  }

  lemma MemberThen(key: Text, value: Text, rest: Text)
    ensures Member(key, value) + rest == Quoted(key) + ([COLON] + (value + rest))
    ensures ([COLON] + (value + rest))[1..] == value + rest
  {}

  lemma MembersFrom(nums: Numbers, t: Text, key: Text, afterKey: Text, v: Json, rest: Text, acc: map<Text, Json>)
    requires ParseString(t) == Some((key, afterKey))
    requires afterKey != [] && afterKey[0] == COLON && ParseValue(nums, afterKey[1..]) == Some((v, rest))
    ensures rest == [CLOSE] ==> ParseMembers(nums, t, acc) == Some(acc[key := v])
    ensures rest != [] && rest[0] == COMMA ==>
      ParseMembers(nums, t, acc) == ParseMembers(nums, rest[1..], acc[key := v])
  {}

  /** One printed member is read back, and reading goes on with what follows it. */
  lemma ParseMember(nums: Numbers, key: Text, value: Text, v: Json, rest: Text, acc: map<Text, Json>)
    requires ParseValue(nums, value + rest) == Some((v, rest))
    ensures rest == [CLOSE] ==> ParseMembers(nums, Member(key, value) + rest, acc) == Some(acc[key := v])
    ensures rest != [] && rest[0] == COMMA ==>
      ParseMembers(nums, Member(key, value) + rest, acc) == ParseMembers(nums, rest[1..], acc[key := v])
  {
    var afterKey := [COLON] + (value + rest);
    MemberThen(key, value, rest);
    ParseQuoted(key, afterKey);
    MembersFrom(nums, Member(key, value) + rest, key, afterKey, v, rest, acc);
  }

  function IdTail(c: Cursor): Text { Member(KEY_ID, Quoted(c.id)) + [CLOSE] }

  function ScoreTail(nums: Numbers, c: Cursor): Text { Member(KEY_S, nums.show(c.s)) + ([COMMA] + IdTail(c)) }

  function Members(nums: Numbers, c: Cursor): Text {
    Member(KEY_B, nums.show(c.b as real)) + ([COMMA] + ScoreTail(nums, c))
  }

  lemma ParseIdTail(nums: Numbers, c: Cursor, acc: map<Text, Json>)
    ensures ParseMembers(nums, IdTail(c), acc) == Some(acc[KEY_ID := JString(c.id)])
  {
    ParseStringValue(nums, c.id, [CLOSE]);
    ParseMember(nums, KEY_ID, Quoted(c.id), JString(c.id), [CLOSE], acc);
  }

  lemma ParseNumberMember(nums: Numbers, key: Text, x: real, rest: Text, acc: map<Text, Json>)
    requires NumbersRoundTrip(nums) && x in nums.doubles
    ensures ParseMembers(nums, Member(key, nums.show(x)) + ([COMMA] + rest), acc) ==
            ParseMembers(nums, rest, acc[key := JNumber(x)])
  {
    ParseNumberValue(nums, x, [COMMA] + rest);
    ParseMember(nums, key, nums.show(x), JNumber(x), [COMMA] + rest, acc);
    assert ([COMMA] + rest)[1..] == rest;
  }

  lemma StringifiedMembers(nums: Numbers, c: Cursor)
    ensures Stringify(nums, c) == [OPEN] + Members(nums, c)
  {}

  /** Parsing the printed cursor yields exactly its three members. */
  lemma ParseStringified(nums: Numbers, c: Cursor)
    requires NumbersRoundTrip(nums) && c.b in {0, 1} && c.s in nums.doubles
    ensures ParseCursor(nums, Stringify(nums, c)) ==
      FromMembers(map[][KEY_B := JNumber(c.b as real)][KEY_S := JNumber(c.s)][KEY_ID := JString(c.id)])
  {
    var withB: map<Text, Json> := map[][KEY_B := JNumber(c.b as real)];
    StringifiedMembers(nums, c);
    assert ([OPEN] + Members(nums, c))[1..] == Members(nums, c);
    ParseNumberMember(nums, KEY_B, c.b as real, ScoreTail(nums, c), map[]);
    ParseNumberMember(nums, KEY_S, c.s, IdTail(c), withB);
    ParseIdTail(nums, c, withB[KEY_S := JNumber(c.s)]);
  }

  lemma MemberIsWellFormed(key: Text, value: Text)
    requires WellFormed(value)
    ensures WellFormed(Member(key, value))
  {
    QuotedIsWellFormed(key);
    WellFormedAppend(Quoted(key), [COLON]);
    WellFormedAppend(Quoted(key) + [COLON], value);
  }

  lemma QuotedIsWellFormed(s: Text)
    ensures WellFormed(Quoted(s))
  {
    EscapeIsWellFormed(s);
    WellFormedAppend([QUOTE], Escape(s));
    WellFormedAppend([QUOTE] + Escape(s), [QUOTE]);
  }

  lemma StringifyIsWellFormed(nums: Numbers, c: Cursor)
    requires NumbersRoundTrip(nums) && c.b in {0, 1} && c.s in nums.doubles
    ensures WellFormed(Stringify(nums, c))
  {
    var b, s := nums.show(c.b as real), nums.show(c.s);
    PlainIsWellFormed(b);
    PlainIsWellFormed(s);
    QuotedIsWellFormed(c.id);
    MemberIsWellFormed(KEY_B, b);
    MemberIsWellFormed(KEY_S, s);
    MemberIsWellFormed(KEY_ID, Quoted(c.id));
    var t1 := [OPEN] + Member(KEY_B, b);
    WellFormedAppend([OPEN], Member(KEY_B, b));
    WellFormedAppend(t1, [COMMA]);
    var t2 := t1 + [COMMA] + Member(KEY_S, s);
    WellFormedAppend(t1 + [COMMA], Member(KEY_S, s));
    WellFormedAppend(t2, [COMMA]);
    WellFormedAppend(t2 + [COMMA], Member(KEY_ID, Quoted(c.id)));
    WellFormedAppend(t2 + [COMMA] + Member(KEY_ID, Quoted(c.id)), [CLOSE]);
  }

  /** The bytes of a printed cursor come through the text of the cursor. */
  lemma BytesRoundTrip(t: Text)
    requires WellFormed(t)
    ensures FromBase64(Base64(Utf8(t))) == Some(Utf8(t)) && FromUtf8(Utf8(t)) == Some(t)
  {
    Utf8RoundTrip(t);
    Base64RoundTrip(Utf8(t));
  }

  lemma CursorFromMembers(nums: Numbers, c: Cursor)
    requires NumbersRoundTrip(nums) && c.b in {0, 1} && c.s in nums.doubles
    ensures ParseCursor(nums, Stringify(nums, c)) == if c.id == [] then None else Some(c)
  {
    ParseStringified(nums, c);
  }

  lemma DecodeFrom(nums: Numbers, raw: string, bs: seq<Byte>, t: Text)
    requires FromBase64(raw) == Some(bs) && FromUtf8(bs) == Some(t)
    ensures Decode(nums, raw) == ParseCursor(nums, t)
  {}

  /** Decoding an encoded cursor gives it back, except that a cursor with an empty id is refused. */
  lemma RoundTrip(nums: Numbers, c: Cursor)
    requires NumbersRoundTrip(nums) && c.b in {0, 1} && c.s in nums.doubles
    ensures Decode(nums, Encode(nums, c)) == if c.id == [] then None else Some(c)
  {
    var t := Stringify(nums, c);
    StringifyIsWellFormed(nums, c);
    BytesRoundTrip(t);
    DecodeFrom(nums, Encode(nums, c), Utf8(t), t);
    CursorFromMembers(nums, c);
  }

  lemma EncodeInjective(nums: Numbers, c: Cursor, d: Cursor)
    requires NumbersRoundTrip(nums)
    requires c.b in {0, 1} && c.s in nums.doubles && c.id != []
    requires d.b in {0, 1} && d.s in nums.doubles && d.id != []
    requires Encode(nums, c) == Encode(nums, d)
    ensures c == d
  {
    RoundTrip(nums, c);
    RoundTrip(nums, d);
  }

  // ---- whole scores satisfy the assumption on numbers

  function DigitUnit(d: int): CodeUnit { if 0 <= d < 10 then 0x30 + d else 0x30 }

  function UnitDigit(u: int): int { u - 0x30 }

  function ToUnits(ds: seq<int>): Text { seq(|ds|, i requires 0 <= i < |ds| => DigitUnit(ds[i])) }

  function ToDigits(t: Text): seq<int> { seq(|t|, i requires 0 <= i < |t| => UnitDigit(t[i])) }

  lemma ToDigitsToUnits(ds: seq<int>)
    requires forall i | 0 <= i < |ds| :: 0 <= ds[i] < 10
    ensures ToDigits(ToUnits(ds)) == ds
    ensures forall i | 0 <= i < |ds| :: 0x30 <= ToUnits(ds)[i] <= 0x39
  {}

  function ShowNat(n: nat): Text { ToUnits(Digits(n)) }

  function ReadNat(t: Text): int { DigitsValue(ToDigits(t)) }

  function ShowInt(n: int): Text { if n < 0 then [0x2d] + ShowNat(-n) else ShowNat(n) }

  function ReadInt(t: Text): int { if t != [] && t[0] == 0x2d then -ReadNat(t[1..]) else ReadNat(t) }

  ghost function WholeNumbers(): Numbers {
    Numbers((iset x: real | x == x.Floor as real), (x: real) => ShowInt(x.Floor), (t: Text) => Some(ReadInt(t) as real))
  }

  lemma ShowNatRoundTrip(n: nat)
    ensures ReadNat(ShowNat(n)) == n
    ensures ShowNat(n) != [] && forall i | 0 <= i < |ShowNat(n)| :: 0x30 <= ShowNat(n)[i] <= 0x39
  {
    DigitsRoundTrip(n);
    ToDigitsToUnits(Digits(n));
  }

  lemma ShowIntRoundTrip(n: int)
    ensures ReadInt(ShowInt(n)) == n
    ensures ShowInt(n) != [] && forall i | 0 <= i < |ShowInt(n)| :: NumberUnit(ShowInt(n)[i])
  {
    ShowNatRoundTrip(if n < 0 then -n else n);
    if n < 0 {
      assert ShowInt(n)[1..] == ShowNat(-n);
    }
  }

  /** The assumption on numbers can be met: it holds of the whole numbers in decimal notation,
      which is what the scores of the match list are. */
  lemma WholeNumbersRoundTrip()
    ensures NumbersRoundTrip(WholeNumbers())
  {
    var nums := WholeNumbers();
    assert 0.0 == (0.0).Floor as real && 1.0 == (1.0).Floor as real;
    forall x: real | x in nums.doubles
      ensures nums.read(nums.show(x)) == Some(x)
      ensures nums.show(x) != []
      ensures forall i | 0 <= i < |nums.show(x)| :: NumberUnit(nums.show(x)[i])
    {
      ShowIntRoundTrip(x.Floor);
    }
  }

  // ---- what the texts look like

  function Units(s: string): (t: seq<int>)
    ensures |t| == |s|
  {
    seq(|s|, i requires 0 <= i < |s| => s[i] as int)
  }

  /** Escapes of section 7 of RFC 8259, as `JSON.stringify` chooses them. */
  lemma KnownEscapes()
    ensures EscapeUnit(0x22) == Units("\\\"") && EscapeUnit(0x0a) == Units("\\n") && EscapeUnit(0x61) == Units("a")
    ensures EscapeUnit(0x1f) == Units("\\u001f") && EscapeUnit(0xd800) == Units("\\ud800")
  {}

  /** The euro sign takes three bytes, an emoji four, and ASCII stays as it is. */
  lemma KnownUtf8()
    ensures Utf8Unit(0x20ac) == [0xe2, 0x82, 0xac] && Utf8Pair(0xd83d, 0xde00) == [0xf0, 0x9f, 0x98, 0x80]
  {}

  lemma {:induction false} Utf8OfAscii(t: Text)
    requires forall i | 0 <= i < |t| :: t[i] < 0x80
    ensures Utf8(t) == t
    decreases |t|
  {
    if t != [] {
      Utf8OfAscii(t[1..]);
      assert t == [t[0]] + t[1..];
    }
  }

  /** Test vectors of section 10 of RFC 4648, without padding, and the two characters that base64url changes. */
  lemma KnownBase64()
    ensures Base64([0x66]) == "Zg" && Base64([0x66, 0x6f]) == "Zm8" && Base64([0x66, 0x6f, 0x6f]) == "Zm9v"
    ensures Base64([0x66, 0x6f, 0x6f, 0x62, 0x61, 0x72]) == "Zm9vYmFy"
    ensures Base64([0xfb, 0xff]) == "-_8"
  {
    var six: seq<Byte> := [0x66, 0x6f, 0x6f, 0x62, 0x61, 0x72];
    var three: seq<Byte> := [0x62, 0x61, 0x72];
    assert six[3..] == three && three[3..] == [];
    assert Sextets(three) == [24, 38, 5, 50];
    assert Sextets(six) == [25, 38, 61, 47, 24, 38, 5, 50];
  }

  lemma KnownKeys()
    ensures Quoted(KEY_B) == Units("\"b\"") && Quoted(KEY_S) == Units("\"s\"") && Quoted(KEY_ID) == Units("\"id\"")
  {
    PlainEscape(KEY_B);
    PlainEscape(KEY_S);
    PlainEscape(KEY_ID);
  }

  lemma KnownStarts()
    ensures [OPEN] + Units("\"b\"") + [COLON] == Units("{\"b\":")
    ensures [COMMA] + Units("\"s\"") + [COLON] == Units(",\"s\":")
    ensures [COMMA] + Units("\"id\"") + [COLON] == Units(",\"id\":")
    ensures [CLOSE] == Units("}")
  {}

  lemma Regrouped(a: Text, b: Text, c: Text, x: Text, d: Text, e: Text, f: Text, y: Text,
                  g: Text, h: Text, i: Text, z: Text, k: Text)
    ensures a + ((b + c) + x) + d + ((e + f) + y) + g + ((h + i) + z) + k
         == (a + b + c) + x + (d + e + f) + y + (g + h + i) + z + k
  {}

  /** The object behind a cursor. */
  lemma KnownObject(nums: Numbers, c: Cursor)
    ensures Stringify(nums, c) ==
      Units("{\"b\":") + nums.show(c.b as real) + Units(",\"s\":") + nums.show(c.s) +
      Units(",\"id\":") + Quoted(c.id) + Units("}")
  {
    KnownKeys();
    KnownStarts();
    Regrouped([OPEN], Quoted(KEY_B), [COLON], nums.show(c.b as real), [COMMA], Quoted(KEY_S), [COLON], nums.show(c.s),
              [COMMA], Quoted(KEY_ID), [COLON], Quoted(c.id), [CLOSE]);
  }

  lemma {:induction false} PlainEscape(t: Text)
    requires forall i | 0 <= i < |t| :: 0x30 <= t[i] < 0x5b || 0x5d <= t[i] < 0x80
    ensures Escape(t) == t
    decreases |t|
  {
    if t != [] {
      PlainEscape(t[1..]);
      assert t == [t[0]] + t[1..];
    }
  }
}
