/** Links handed to the App on its command line: percent-decoding, and unwrapping of the App's own
    scheme. Texts are their UTF-8 bytes. */
module CaptureLink {
  import opened Prelude

  const PERCENT: Byte := 37
  const AMPERSAND: Byte := 38
  const PLUS: Byte := 43
  const SLASH: Byte := 47

  /** "rinadown:", "download?" and "url=". */
  const SCHEME: Bytes := [114, 105, 110, 97, 100, 111, 119, 110, 58]
  const DOWNLOAD: Bytes := [100, 111, 119, 110, 108, 111, 97, 100, 63]
  const URL_FIELD: Bytes := [117, 114, 108, 61]

  // ---------- UTF-8 ----------

  predicate IsContinuation(b: Byte) {
    0x80 <= b < 0xC0
  }

  predicate Continued(s: Bytes, from: nat, n: nat) {
    from + n <= |s| && forall i :: from <= i < from + n ==> IsContinuation(s[i])
  }

  /** The length of the well-formed character at the start of the text, if there is one. */
  function CharLength(s: Bytes): (n: nat)
    ensures n <= |s|
  {
    if s == [] then 0
    else
      var b := s[0];
      if b < 0x80 then 1
      else if 0xC2 <= b < 0xE0 then (if Continued(s, 1, 1) then 2 else 0)
      else if 0xE0 <= b < 0xF0 then
        if Continued(s, 1, 2) && (b == 0xE0 ==> s[1] >= 0xA0) && (b == 0xED ==> s[1] < 0xA0) then 3 else 0
      else if 0xF0 <= b < 0xF5 then
        if Continued(s, 1, 3) && (b == 0xF0 ==> s[1] >= 0x90) && (b == 0xF4 ==> s[1] < 0x90) then 4 else 0
      else 0
  }

  predicate IsUtf8(s: Bytes)
    decreases |s|
  {
    s == [] || (CharLength(s) > 0 && IsUtf8(s[CharLength(s)..]))
  }

  /** The code points that UTF-8 encodes: all but the surrogates. */
  predicate IsScalar(c: nat) {
    c < 0xD800 || 0xE000 <= c < 0x11_0000
  }

  /** The encoding of a code point, by section 3 of RFC 3629. */
  function Utf8(c: nat): (b: Bytes)
    requires IsScalar(c)
    ensures 1 <= |b| <= 4
  {
    if c < 0x80 then [c]
    else if c < 0x800 then [0xC0 + c / 0x40, 0x80 + c % 0x40]
    else if c < 0x1_0000 then [0xE0 + c / 0x1000, 0x80 + c / 0x40 % 0x40, 0x80 + c % 0x40]
    else [0xF0 + c / 0x4_0000, 0x80 + c / 0x1000 % 0x40, 0x80 + c / 0x40 % 0x40, 0x80 + c % 0x40]
  }

  lemma CharIsRead(c: nat, rest: Bytes)
    requires IsScalar(c)
    ensures CharLength(Utf8(c) + rest) == |Utf8(c)|
  {
    var s := Utf8(c) + rest;
    if c < 0x80 {
    } else if c < 0x800 {
      assert Continued(s, 1, 1);
    } else if c < 0x1_0000 {
      assert Continued(s, 1, 2);
    } else {
      assert Continued(s, 1, 3);
    }
  }

  lemma TwoBytes(a: int, b: int)
    requires 0xC2 <= a < 0xE0 && 0x80 <= b < 0xC0
    ensures var c := (a - 0xC0) * 0x40 + (b - 0x80); 0x80 <= c < 0x800 && Utf8(c) == [a, b]
  {
  }

  lemma ThreeBytes(a: int, b: int, d: int)
    requires 0xE0 <= a < 0xF0 && 0x80 <= b < 0xC0 && 0x80 <= d < 0xC0
    requires (a == 0xE0 ==> b >= 0xA0) && (a == 0xED ==> b < 0xA0)
    ensures var c := (a - 0xE0) * 0x1000 + (b - 0x80) * 0x40 + (d - 0x80);
      0x800 <= c < 0x1_0000 && IsScalar(c) && Utf8(c) == [a, b, d]
  {
    var c := (a - 0xE0) * 0x1000 + (b - 0x80) * 0x40 + (d - 0x80);
    assert c / 0x40 == (a - 0xE0) * 0x40 + (b - 0x80);
  }

  lemma FourBytes(a: int, b: int, d: int, e: int)
    requires 0xF0 <= a < 0xF5 && 0x80 <= b < 0xC0 && 0x80 <= d < 0xC0 && 0x80 <= e < 0xC0
    requires (a == 0xF0 ==> b >= 0x90) && (a == 0xF4 ==> b < 0x90)
    ensures var c := (a - 0xF0) * 0x4_0000 + (b - 0x80) * 0x1000 + (d - 0x80) * 0x40 + (e - 0x80);
      0x1_0000 <= c < 0x11_0000 && Utf8(c) == [a, b, d, e]
  {
    var c := (a - 0xF0) * 0x4_0000 + (b - 0x80) * 0x1000 + (d - 0x80) * 0x40 + (e - 0x80);
    assert c / 0x40 == (a - 0xF0) * 0x1000 + (b - 0x80) * 0x40 + (d - 0x80);
    assert c / 0x1000 == (a - 0xF0) * 0x40 + (b - 0x80);
  }

  lemma ReadIsChar(s: Bytes) returns (c: nat)
    requires CharLength(s) > 0
    ensures IsScalar(c) && Utf8(c) == s[..CharLength(s)]
  {
    var n := CharLength(s);
    if n == 1 {
      c := s[0];
    } else if n == 2 {
      assert Continued(s, 1, 1);
      TwoBytes(s[0], s[1]);
      c := (s[0] as int - 0xC0) * 0x40 + (s[1] as int - 0x80);
    } else if n == 3 {
      assert Continued(s, 1, 2);
      ThreeBytes(s[0], s[1], s[2]);
      c := (s[0] as int - 0xE0) * 0x1000 + (s[1] as int - 0x80) * 0x40 + (s[2] as int - 0x80);
    } else {
      assert Continued(s, 1, 3);
      FourBytes(s[0], s[1], s[2], s[3]);
      c := (s[0] as int - 0xF0) * 0x4_0000 + (s[1] as int - 0x80) * 0x1000 + (s[2] as int - 0x80) * 0x40
        + (s[3] as int - 0x80);
    }
  }

  function Utf8All(cs: seq<nat>): Bytes
    requires forall c <- cs :: IsScalar(c)
  {
    if cs == [] then [] else Utf8(cs[0]) + Utf8All(cs[1..])
  }

  ghost predicate SpellsPoints(s: Bytes, cs: seq<nat>) {
    (forall c <- cs :: IsScalar(c)) && s == Utf8All(cs)
  }

  /** A sequence of bytes is a text exactly if it encodes some code points. */
  lemma TextIff(s: Bytes)
    ensures IsUtf8(s) <==> exists cs :: SpellsPoints(s, cs)
  {
    if IsUtf8(s) {
      PointsOf(s);
    }
    forall cs | SpellsPoints(s, cs) ensures IsUtf8(s) {
      PointsAreText(cs);
    }
  }

  lemma {:induction false} PointsAreText(cs: seq<nat>)
    requires forall c <- cs :: IsScalar(c)
    ensures IsUtf8(Utf8All(cs))
  {
    if cs != [] {
      assert cs[0] in cs && forall c <- cs[1..] :: c in cs;
      var first, rest := Utf8(cs[0]), Utf8All(cs[1..]);
      CharIsRead(cs[0], rest);
      PointsAreText(cs[1..]);
      assert (first + rest)[|first|..] == rest;
    }
  }

  lemma {:induction false} PointsOf(s: Bytes)
    requires IsUtf8(s)
    ensures exists cs :: SpellsPoints(s, cs)
    decreases |s|
  {
    if s == [] {
      assert SpellsPoints(s, []);
    } else {
      var n := CharLength(s);
      var c := ReadIsChar(s);
      PointsOf(s[n..]);
      var cs :| SpellsPoints(s[n..], cs);
      assert ([c] + cs)[1..] == cs && s == s[..n] + s[n..];
      assert SpellsPoints(s, [c] + cs);
    }
  }

  // ---------- percent-decoding ----------

  function Digit(b: Byte): Option<nat> {
    if 48 <= b < 58 then Some(b - 48)
    else if 65 <= b < 71 then Some(b - 55)
    else if 97 <= b < 103 then Some(b - 87)
    else None
  }

  function DigitsValue(s: Bytes): Option<nat> {
    if s == [] then Some(0)
    else
      var high, low := DigitsValue(s[..|s| - 1]), Digit(s[|s| - 1]);
      if high.Some? && low.Some? then Some(16 * high.value + low.value) else None
  }

  /** The standard parser of an unsigned byte in base 16: an optional plus sign, then at least one
      digit, and a value that fits. */
  function ParseByte(s: Bytes): Option<Byte> {
    var digits := if |s| > 1 && s[0] == PLUS then s[1..] else s;
    var v := DigitsValue(digits);
    if digits != [] && v.Some? && v.value < 256 then Some(v.value) else None
  }

  /** Cutting the text at `i` splits no character. */
  predicate IsBoundary(s: Bytes, i: nat)
    requires i <= |s|
  {
    i == |s| || !IsContinuation(s[i])
  }

  predicate IsEscape(s: Bytes, i: nat) {
    i + 2 < |s| && s[i] == PERCENT
  }

  /** The bytes the loop produces from `i` on; `None` if it cuts the text inside a character, which
      stops the program. */
  function DecodeFrom(s: Bytes, i: nat): (r: Option<Bytes>)
    requires i <= |s|
    decreases |s| - i
  {
    if i == |s| then Some([])
    else if IsEscape(s, i) then
      if !IsBoundary(s, i + 1) || !IsBoundary(s, i + 3) then None
      else
        var byte := ParseByte(s[i + 1..i + 3]);
        if byte.Some? then Prepend(byte.value, DecodeFrom(s, i + 3)) else Prepend(s[i], DecodeFrom(s, i + 1))
    else Prepend(s[i], DecodeFrom(s, i + 1))
  }

  function Prepend(b: Byte, r: Option<Bytes>): Option<Bytes> {
    if r.None? then None else Some([b] + r.value)
  }

  function PercentDecode(s: Bytes): Option<Bytes> {
    var out := DecodeFrom(s, 0);
    if out.None? then None else if IsUtf8(out.value) then out else Some(s)
  }

  function Glue(out: Bytes, r: Option<Bytes>): Option<Bytes> {
    if r.None? then None else Some(out + r.value)
  }

  lemma GluePrepend(out: Bytes, b: Byte, r: Option<Bytes>)
    ensures Glue(out, Prepend(b, r)) == Glue(out + [b], r)
  {
    if r.Some? {
      assert out + ([b] + r.value) == out + [b] + r.value;
    }
  }

  method Decode(value: Bytes) returns (r: Option<Bytes>)
    ensures r == PercentDecode(value)
  {
    var out: Bytes, index := [], 0;
    ghost var all := DecodeFrom(value, 0);
    assert all.Some? ==> [] + all.value == all.value;
    while index < |value|
      invariant index <= |value|
      invariant Glue(out, DecodeFrom(value, index)) == all
    {
      if value[index] == PERCENT && index + 2 < |value| {
        if !IsBoundary(value, index + 1) || !IsBoundary(value, index + 3) {
          return None;
        }
        var byte := ParseByte(value[index + 1..index + 3]);
        if byte.Some? {
          GluePrepend(out, byte.value, DecodeFrom(value, index + 3));
          out := out + [byte.value];
          index := index + 3;
          continue;
        }
      }
      GluePrepend(out, value[index], DecodeFrom(value, index + 1));
      out := out + [value[index]];
      index := index + 1;
    }
    assert out + [] == out;
    r := if IsUtf8(out) then Some(out) else Some(value);
  }

  /** Which two bytes after a percent sign make an escape: two hexadecimal digits, or a plus sign and
      one, which no standard for URLs knows. */
  lemma EscapesIff(a: Byte, b: Byte)
    ensures ParseByte([a, b]).Some? <==> (Digit(a).Some? || a == PLUS) && Digit(b).Some?
    ensures ParseByte([a, b]).Some? ==>
      ParseByte([a, b]).value == (if a == PLUS then 0 else 16 * Digit(a).value) + Digit(b).value
  {
    assert [a, b][1..] == [b] && [a, b][..1] == [a] && [b][..0] == [] && [a][..0] == [];
    assert DigitsValue([a]) == Digit(a) && DigitsValue([b]) == Digit(b);
  }

  /** So "%+4" is read as the byte 4. */
  lemma PlusIsRead()
    ensures PercentDecode([PERCENT, PLUS, 52]) == Some([4])
  {
    var s: Bytes, four: Bytes := [PERCENT, PLUS, 52], [4];
    EscapesIff(PLUS, 52);
    assert s[1..3] == [PLUS, 52] && ParseByte(s[1..3]) == Some(4);
    assert DecodeFrom(s, 3) == Some([]);
    assert DecodeFrom(s, 0) == Prepend(4, Some([]));
    assert four + [] == four && four[1..] == [];
    assert CharLength(four) == 1 && IsUtf8(four);
  }

  predicate Cuts(s: Bytes, k: nat) {
    IsEscape(s, k) && (IsContinuation(s[k + 1]) || (k + 3 < |s| && IsContinuation(s[k + 3])))
  }

  /** Decoding stops the program exactly when some percent sign is followed, two bytes on, by the
      middle of a character. */
  lemma {:induction false} CutsIff(s: Bytes, i: nat)
    requires i <= |s|
    ensures DecodeFrom(s, i).None? <==> exists k: nat :: i <= k && Cuts(s, k)
    decreases |s| - i
  {
    if i == |s| {
    } else if Cuts(s, i) {
    } else if IsEscape(s, i) && ParseByte(s[i + 1..i + 3]).Some? {
      assert s[i + 1..i + 3] == [s[i + 1], s[i + 2]];
      EscapesIff(s[i + 1], s[i + 2]);
      assert !IsEscape(s, i + 1) && !IsEscape(s, i + 2);
      assert !Cuts(s, i + 1) && !Cuts(s, i + 2);
      CutsIff(s, i + 3);
      assert DecodeFrom(s, i).None? <==> DecodeFrom(s, i + 3).None?;
    } else {
      CutsIff(s, i + 1);
      assert DecodeFrom(s, i).None? <==> DecodeFrom(s, i + 1).None?;
    }
  }

  /** A text of whole characters that stops the program: a percent sign, a letter, and a character of
      two bytes. */
  lemma WholeTextCuts()
    ensures var s: Bytes := [PERCENT, 97, 0xC3, 0xA9]; IsUtf8(s) && PercentDecode(s).None?
  {
    var s: Bytes := [PERCENT, 97, 0xC3, 0xA9];
    assert s[1..] == [97, 0xC3, 0xA9] && s[1..][1..] == [0xC3, 0xA9] && s[1..][1..][2..] == [];
    assert Continued(s[1..][1..], 1, 1) && CharLength(s[1..][1..]) == 2;
    assert IsUtf8(s[1..][1..]) && IsUtf8(s[1..]);
    assert Cuts(s, 0);
    CutsIff(s, 0);
  }

  lemma {:induction false} NeverLonger(s: Bytes, i: nat)
    requires i <= |s|
    ensures DecodeFrom(s, i).Some? ==> |DecodeFrom(s, i).value| <= |s| - i
    decreases |s| - i
  {
    if i < |s| {
      NeverLonger(s, i + 1);
      if i + 3 <= |s| {
        NeverLonger(s, i + 3);
      }
    }
  }

  lemma DecodeNeverLonger(s: Bytes)
    ensures PercentDecode(s).Some? ==> |PercentDecode(s).value| <= |s|
  {
    NeverLonger(s, 0);
  }

  predicate IsHexDigit(b: Byte) {
    '0' as int <= b <= '9' as int || 'A' as int <= b <= 'F' as int || 'a' as int <= b <= 'f' as int
  }

  /** Two bytes that make an escape after a percent sign. */
  predicate Escapes(a: Byte, b: Byte) {
    (IsHexDigit(a) || a == '+' as int) && IsHexDigit(b)
  }

  /** No percent sign in the text begins an escape. */
  predicate NoEscapes(s: Bytes) {
    forall k :: 0 <= k < |s| - 2 && s[k] == PERCENT ==> !Escapes(s[k + 1], s[k + 2])
  }

  lemma {:induction false} PlainFrom(s: Bytes, i: nat)
    requires i <= |s| && NoEscapes(s) && forall k: nat :: !Cuts(s, k)
    ensures DecodeFrom(s, i) == Some(s[i..])
    decreases |s| - i
  {
    if i == |s| {
      assert s[i..] == [];
    } else {
      if IsEscape(s, i) {
        assert !Cuts(s, i);
        EscapesIff(s[i + 1], s[i + 2]);
        assert s[i + 1..i + 3] == [s[i + 1], s[i + 2]];
      }
      PlainFrom(s, i + 1);
      assert [s[i]] + s[i + 1..] == s[i..];
    }
  }

  /** Text without escapes comes back as it is, and so do percent signs that begin none. */
  lemma PlainIsUnchanged(s: Bytes)
    requires NoEscapes(s) && forall k: nat :: !Cuts(s, k)
    ensures PercentDecode(s) == Some(s)
  {
    PlainFrom(s, 0);
    assert s[0..] == s;
  }

  /** What comes back of a text is a text: the decoded bytes if they are one, and else the text itself. */
  lemma DecodedIsText(s: Bytes)
    requires IsUtf8(s) && PercentDecode(s).Some?
    ensures IsUtf8(PercentDecode(s).value)
    ensures PercentDecode(s).value == s || Some(PercentDecode(s).value) == DecodeFrom(s, 0)
    ensures DecodeFrom(s, 0).Some? && (IsUtf8(DecodeFrom(s, 0).value) ==> PercentDecode(s) == DecodeFrom(s, 0))
  {
  }

  // ---------- encoding ----------

  /** How texts are encoded: which bytes are kept, and whether the digits of escapes are lower case. */
  datatype Encoder = Encoder(keep: set<Byte>, lower: bool)

  function HexDigit(n: nat, lower: bool): Byte
    requires n < 16
  {
    if n < 10 then '0' as int + n else if lower then 'a' as int + n - 10 else 'A' as int + n - 10
  }

  /** A byte kept as it is or written as an escape. */
  function EncodeByte(b: Byte, how: Encoder): Bytes {
    if b in how.keep then [b] else [PERCENT, HexDigit(b / 16, how.lower), HexDigit(b % 16, how.lower)]
  }

  function Encode(u: Bytes, how: Encoder): Bytes {
    if u == [] then [] else EncodeByte(u[0], how) + Encode(u[1..], how)
  }

  /** What an encoder may keep: some of the ASCII characters, the percent sign not among them. */
  predicate KeepsAscii(how: Encoder) {
    PERCENT !in how.keep && forall b <- how.keep :: b < 0x80
  }

  lemma {:induction false} EncodedIsAscii(u: Bytes, how: Encoder)
    requires KeepsAscii(how)
    ensures forall b <- Encode(u, how) :: b < 0x80 && (b == AMPERSAND ==> AMPERSAND in how.keep)
  {
    if u != [] {
      EncodedIsAscii(u[1..], how);
    }
  }

  lemma HexPair(b: Byte, how: Encoder)
    ensures ParseByte([HexDigit(b / 16, how.lower), HexDigit(b % 16, how.lower)]) == Some(b)
  {
    EscapesIff(HexDigit(b / 16, how.lower), HexDigit(b % 16, how.lower));
  }

  /** Decoding what stands at `i` in the text, where it is an encoding of `u` to the end. */
  lemma {:induction false} DecodeEncoded(s: Bytes, i: nat, u: Bytes, how: Encoder)
    requires i <= |s| && s[i..] == Encode(u, how) && KeepsAscii(how)
    ensures DecodeFrom(s, i) == Some(u)
    decreases |u|
  {
    if u != [] {
      var b := u[0];
      var rest := Encode(u[1..], how);
      assert s[i] == s[i..][0];
      assert u == [b] + u[1..];
      if b in how.keep {
        assert s[i + 1..] == s[i..][1..] == rest;
        DecodeEncoded(s, i + 1, u[1..], how);
      } else {
        var hi, lo := HexDigit(b / 16, how.lower), HexDigit(b % 16, how.lower);
        assert s[i + 1] == s[i..][1] == hi && s[i + 2] == s[i..][2] == lo;
        assert s[i + 3..] == s[i..][3..] == rest;
        assert s[i + 1..i + 3] == [hi, lo];
        HexPair(b, how);
        EncodedIsAscii(u[1..], how);
        assert i + 3 < |s| ==> s[i + 3] == rest[0] && rest[0] in rest;
        DecodeEncoded(s, i + 3, u[1..], how);
      }
    }
  }

  /** Decoding undoes encoding, for every text and every choice of the characters kept. */
  lemma DecodeUndoesEncode(u: Bytes, how: Encoder)
    requires IsUtf8(u) && KeepsAscii(how)
    ensures PercentDecode(Encode(u, how)) == Some(u)
  {
    var s := Encode(u, how);
    assert s[0..] == s;
    DecodeEncoded(s, 0, u, how);
  }

  // ---------- the App's own links ----------

  function Lower(s: Bytes): (r: Bytes)
    ensures |r| == |s|
  {
    if s == [] then [] else [if 65 <= s[0] <= 90 then s[0] + 32 else s[0]] + Lower(s[1..])
  }

  function TrimSlashes(s: Bytes): Bytes {
    if s != [] && s[0] == SLASH then TrimSlashes(s[1..]) else s
  }

  /** The text up to the next ampersand. */
  function FirstPair(s: Bytes): (p: Bytes)
    ensures |p| <= |s|
  {
    if s == [] || s[0] == AMPERSAND then [] else [s[0]] + FirstPair(s[1..])
  }

  /** The value of the first pair whose name is "url". */
  function UrlValue(query: Bytes): Option<Bytes>
    decreases |query|
  {
    var pair := FirstPair(query);
    if URL_FIELD <= pair then Some(pair[|URL_FIELD|..])
    else if |pair| < |query| then UrlValue(query[|pair| + 1..])
    else None
  }

  function NormalizeCaptureUrl(value: Bytes): Option<Bytes> {
    if !(SCHEME <= Lower(value)) then Some(value)
    else
      var rest := TrimSlashes(value[|SCHEME|..]);
      var url := if DOWNLOAD <= rest then UrlValue(rest[|DOWNLOAD|..]) else None;
      if url.Some? then PercentDecode(url.value) else PercentDecode(rest)
  }

  lemma {:induction false} PairEnds(s: Bytes, after: Bytes)
    requires AMPERSAND !in s && (after == [] || after[0] == AMPERSAND)
    ensures FirstPair(s + after) == s
  {
    if s == [] {
      assert s + after == after;
    } else {
      assert (s + after)[1..] == s[1..] + after && s[0] in s;
      PairEnds(s[1..], after);
    }
  }

  function Slashes(n: nat): Bytes {
    if n == 0 then [] else [SLASH] + Slashes(n - 1)
  }

  lemma {:induction false} SlashesJoin(n: nat, rest: Bytes)
    ensures TrimSlashes(Slashes(n) + rest) == TrimSlashes(rest)
  {
    if n == 0 {
      assert Slashes(0) + rest == rest;
    } else {
      assert (Slashes(n) + rest)[1..] == Slashes(n - 1) + rest;
      SlashesJoin(n - 1, rest);
    }
  }

  lemma {:induction false} LowerAppend(a: Bytes, b: Bytes)
    ensures Lower(a + b) == Lower(a) + Lower(b)
  {
    if a == [] {
      assert a + b == b;
    } else {
      assert (a + b)[1..] == a[1..] + b;
      LowerAppend(a[1..], b);
    }
  }

  /** No pair of the query is named "url". */
  predicate NamesNoUrl(query: Bytes) {
    forall i :: 0 <= i <= |query| && (i == 0 || query[i - 1] == AMPERSAND) ==> !(URL_FIELD <= query[i..])
  }

  lemma {:induction false} FirstPairOfBoth(before: Bytes, rest: Bytes)
    requires AMPERSAND in before
    ensures FirstPair(before + rest) == FirstPair(before) && |FirstPair(before)| < |before|
  {
    assert before == [before[0]] + before[1..];
    if before[0] != AMPERSAND {
      assert (before + rest)[1..] == before[1..] + rest;
      FirstPairOfBoth(before[1..], rest);
    }
  }

  lemma NamesNoUrlRest(query: Bytes, n: nat)
    requires NamesNoUrl(query) && 0 < n <= |query| && query[n - 1] == AMPERSAND
    ensures NamesNoUrl(query[n..])
  {
    var rest := query[n..];
    forall i | 0 <= i <= |rest| && (i == 0 || rest[i - 1] == AMPERSAND) ensures !(URL_FIELD <= rest[i..]) {
      assert rest[i..] == query[n + i..] && query[n + i - 1] == AMPERSAND;
    }
  }

  /** Pairs of other names in front are passed over. */
  lemma {:induction false} PairsBefore(before: Bytes, rest: Bytes)
    requires NamesNoUrl(before) && (before == [] || before[|before| - 1] == AMPERSAND)
    ensures UrlValue(before + rest) == UrlValue(rest)
    decreases |before|
  {
    if before == [] {
      assert before + rest == rest;
    } else {
      var pair := FirstPair(before);
      var n := |pair| + 1;
      FirstPairOfBoth(before, rest);
      FirstPairIs(before);
      assert before[0..] == before && !(URL_FIELD <= pair);
      assert (before + rest)[n..] == before[n..] + rest;
      NamesNoUrlRest(before, n);
      PairsBefore(before[n..], rest);
    }
  }

  lemma UrlFieldRead(encoded: Bytes, after: Bytes)
    requires AMPERSAND !in encoded && (after == [] || after[0] == AMPERSAND)
    ensures UrlValue(URL_FIELD + encoded + after) == Some(encoded)
  {
    PairEnds(URL_FIELD + encoded, after);
    assert (URL_FIELD + encoded)[|URL_FIELD|..] == encoded;
  }

  /** Past the scheme, in any case, and its slashes. */
  lemma PastScheme(scheme: Bytes, slashes: nat, rest: Bytes)
    requires Lower(scheme) == SCHEME
    ensures var value := scheme + (Slashes(slashes) + rest);
      SCHEME <= Lower(value) && TrimSlashes(value[|SCHEME|..]) == TrimSlashes(rest)
  {
    var tail := Slashes(slashes) + rest;
    LowerAppend(scheme, tail);
    assert (scheme + tail)[|SCHEME|..] == tail;
    SlashesJoin(slashes, rest);
  }

  lemma QueryIsRead(scheme: Bytes, slashes: nat, query: Bytes)
    requires Lower(scheme) == SCHEME && UrlValue(query).Some?
    ensures NormalizeCaptureUrl(scheme + (Slashes(slashes) + (DOWNLOAD + query)))
         == PercentDecode(UrlValue(query).value)
  {
    var rest := DOWNLOAD + query;
    PastScheme(scheme, slashes, rest);
    assert rest[0] == DOWNLOAD[0] && TrimSlashes(rest) == rest;
    assert DOWNLOAD <= rest && rest[|DOWNLOAD|..] == query;
  }

  /** A link that carries an encoded text gives the text back, whatever the case of the scheme, the
      number of slashes and the pairs before and behind it; only the ampersand must not be kept. */
  lemma LinkRoundTrip(u: Bytes, how: Encoder, scheme: Bytes, slashes: nat, before: Bytes, after: Bytes)
    requires IsUtf8(u) && KeepsAscii(how) && AMPERSAND !in how.keep && Lower(scheme) == SCHEME
    requires NamesNoUrl(before) && (before == [] || before[|before| - 1] == AMPERSAND)
    requires after == [] || after[0] == AMPERSAND
    ensures var query := before + (URL_FIELD + Encode(u, how) + after);
      NormalizeCaptureUrl(scheme + (Slashes(slashes) + (DOWNLOAD + query))) == Some(u)
  {
    var pairs := URL_FIELD + Encode(u, how) + after;
    PairsBefore(before, pairs);
    EncodedIsAscii(u, how);
    UrlFieldRead(Encode(u, how), after);
    QueryIsRead(scheme, slashes, before + pairs);
    DecodeUndoesEncode(u, how);
  }

  /** The text reads as given, byte for character. */
  predicate Spells(b: Bytes, s: string) {
    |b| == |s| && forall i :: 0 <= i < |s| ==> b[i] == s[i] as int
  }

  lemma LinkTexts()
    ensures Spells(SCHEME, "rinadown:") && Spells(DOWNLOAD, "download?") && Spells(URL_FIELD, "url=")
  {
  }

  lemma {:induction false} LowerAt(s: Bytes, i: nat)
    requires i < |s|
    ensures Lower(s)[i] == if 65 <= s[i] <= 90 then s[i] + 32 else s[i]
  {
    if i > 0 {
      LowerAt(s[1..], i - 1);
    }
  }

  /** A link of any other scheme is left alone. */
  lemma ForeignIsUntouched(value: Bytes, i: nat)
    requires i < 9 && (i < |value| ==> value[i] != SCHEME[i] && (65 <= value[i] <= 90 ==> value[i] + 32 != SCHEME[i]))
    ensures NormalizeCaptureUrl(value) == Some(value)
  {
    if i < |value| {
      LowerAt(value, i);
    }
  }

  lemma {:induction false} TrimEncoded(u: Bytes, how: Encoder)
    requires SLASH in how.keep
    ensures TrimSlashes(Encode(u, how)) == Encode(TrimSlashes(u), how)
  {
    if u != [] {
      var e := Encode(u, how);
      assert e == EncodeByte(u[0], how) + Encode(u[1..], how);
      if u[0] == SLASH {
        assert e[1..] == Encode(u[1..], how);
        TrimEncoded(u[1..], how);
      } else {
        assert e[0] != SLASH;
      }
    }
  }

  lemma {:induction false} TrimmedIsUtf8(u: Bytes)
    requires IsUtf8(u)
    ensures IsUtf8(TrimSlashes(u))
  {
    if u != [] && u[0] == SLASH {
      TrimmedIsUtf8(u[1..]);
    }
  }

  /** The text without the slashes it begins with, if the encoder keeps those. */
  function LessSlashes(u: Bytes, how: Encoder): Bytes {
    if SLASH in how.keep then TrimSlashes(u) else u
  }

  lemma EncodedLessSlashes(u: Bytes, how: Encoder)
    requires KeepsAscii(how)
    ensures TrimSlashes(Encode(u, how)) == Encode(LessSlashes(u, how), how)
  {
    if SLASH in how.keep {
      TrimEncoded(u, how);
    } else if u != [] {
      assert Encode(u, how)[0] == EncodeByte(u[0], how)[0] != SLASH;
    }
  }

  lemma {:induction false} TrimShortens(u: Bytes)
    ensures |TrimSlashes(u)| <= |u|
    ensures TrimSlashes(u) == u <==> !([SLASH] <= u)
  {
    if u != [] && u[0] == SLASH {
      TrimShortens(u[1..]);
    }
  }

  /** A byte that is no part of an escape. */
  predicate Plain(b: Byte) {
    b != PERCENT && Digit(b).None?
  }

  lemma PlainIsKept(b: Byte, how: Encoder, i: nat)
    requires i < |EncodeByte(b, how)| && Plain(EncodeByte(b, how)[i])
    ensures i == 0 && b in how.keep
  {
    assert Digit(HexDigit(b / 16, how.lower)).Some? && Digit(HexDigit(b % 16, how.lower)).Some?;
  }

  predicate SplitsAt(u: Bytes, how: Encoder, i: nat, j: nat) {
    var e := Encode(u, how);
    i < |e| && j < |u| && u[j] == e[i] && e[..i] == Encode(u[..j], how) && e[i + 1..] == Encode(u[j + 1..], how)
  }

  lemma SplitsFirst(u: Bytes, how: Encoder)
    requires u != [] && u[0] in how.keep
    ensures SplitsAt(u, how, 0, 0)
  {
    assert Encode(u, how) == [u[0]] + Encode(u[1..], how);
    assert u[..0] == [];
  }

  lemma SplitsLater(u: Bytes, how: Encoder, i: nat, j: nat)
    requires u != [] && SplitsAt(u[1..], how, i, j)
    ensures SplitsAt(u, how, |EncodeByte(u[0], how)| + i, j + 1)
  {
    var e, first, rest := Encode(u, how), EncodeByte(u[0], how), Encode(u[1..], how);
    var k := |first| + i;
    assert e == first + rest && e[k] == rest[i];
    assert e[..k] == first + rest[..i] && e[k + 1..] == rest[i + 1..];
    var before := u[..j + 1];
    assert before[0] == u[0] && before[1..] == u[1..][..j] && u[1..][j + 1..] == u[j + 2..];
    assert Encode(before, how) == first + rest[..i];
  }

  /** A byte of the encoding that is no part of an escape is one that was kept, and the encoding falls
      into the encodings of what was before and behind it. */
  lemma {:induction false} EncodingSplits(u: Bytes, how: Encoder, i: nat)
    requires i < |Encode(u, how)| && Plain(Encode(u, how)[i])
    ensures exists j: nat :: SplitsAt(u, how, i, j)
    decreases |u|
  {
    var first, rest := EncodeByte(u[0], how), Encode(u[1..], how);
    assert Encode(u, how) == first + rest;
    if i < |first| {
      PlainIsKept(u[0], how, i);
      SplitsFirst(u, how);
    } else {
      EncodingSplits(u[1..], how, i - |first|);
      var j: nat :| SplitsAt(u[1..], how, i - |first|, j);
      SplitsLater(u, how, i - |first|, j);
    }
  }

  lemma CharLengthLocal(s: Bytes, k: nat)
    requires CharLength(s) <= k <= |s| && CharLength(s) > 0
    ensures CharLength(s[..k]) == CharLength(s)
  {
  }

  /** Text cut at an ASCII character falls into two texts. */
  lemma {:induction false} Utf8Splits(u: Bytes, j: nat)
    requires IsUtf8(u) && j < |u| && u[j] < 0x80
    ensures IsUtf8(u[..j]) && IsUtf8(u[j + 1..])
    decreases |u|
  {
    var n := CharLength(u);
    if j < n {
      assert j == 0 && n == 1;
      assert u[..0] == [];
    } else {
      Utf8Splits(u[n..], j - n);
      CharLengthLocal(u, j);
      assert u[..j][n..] == u[n..][..j - n] && u[n..][j - n + 1..] == u[j + 1..];
    }
  }

  /** The two together. */
  lemma TextSplits(u: Bytes, how: Encoder, i: nat) returns (before: Bytes, behind: Bytes)
    requires IsUtf8(u) && i < |Encode(u, how)| && Plain(Encode(u, how)[i]) && Encode(u, how)[i] < 0x80
    ensures IsUtf8(before) && IsUtf8(behind) && |before| + |behind| < |u|
    ensures Encode(u, how)[..i] == Encode(before, how) && Encode(u, how)[i + 1..] == Encode(behind, how)
  {
    EncodingSplits(u, how, i);
    var j: nat :| SplitsAt(u, how, i, j);
    Utf8Splits(u, j);
    before, behind := u[..j], u[j + 1..];
  }

  lemma {:induction false} FirstPairIs(s: Bytes)
    ensures FirstPair(s) == s[..|FirstPair(s)|]
    ensures |FirstPair(s)| < |s| ==> s[|FirstPair(s)|] == AMPERSAND
  {
    if s != [] && s[0] != AMPERSAND {
      FirstPairIs(s[1..]);
    }
  }

  ghost predicate EncodesShorter(value: Bytes, how: Encoder, n: nat) {
    exists v :: IsUtf8(v) && |v| <= n && value == Encode(v, how)
  }

  /** What a query finds under "url" in an encoded text is the encoding of some text in it. */
  lemma {:induction false} UrlOfEncoded(w: Bytes, how: Encoder)
    requires IsUtf8(w) && UrlValue(Encode(w, how)).Some?
    ensures EncodesShorter(UrlValue(Encode(w, how)).value, how, |w|)
    decreases |w|
  {
    var query := Encode(w, how);
    var pair := FirstPair(query);
    FirstPairIs(query);
    if |pair| == |query| {
      assert pair == query;
      ValueOfEncoded(w, how);
    } else {
      var before, behind := TextSplits(w, how, |pair|);
      assert pair == Encode(before, how);
      if URL_FIELD <= pair {
        ValueOfEncoded(before, how);
        LongerBound(pair[|URL_FIELD|..], how, |before|, |w|);
      } else {
        UrlOfEncoded(behind, how);
        LongerBound(UrlValue(Encode(behind, how)).value, how, |behind|, |w|);
      }
    }
  }

  lemma LongerBound(value: Bytes, how: Encoder, n: nat, m: nat)
    requires EncodesShorter(value, how, n) && n <= m
    ensures EncodesShorter(value, how, m)
  {
  }

  lemma ValueOfEncoded(w: Bytes, how: Encoder)
    requires IsUtf8(w) && URL_FIELD <= Encode(w, how)
    ensures EncodesShorter(Encode(w, how)[|URL_FIELD|..], how, |w|)
  {
    assert Encode(w, how)[3] == URL_FIELD[3];
    var _, value := TextSplits(w, how, 3);
    assert IsUtf8(value);
  }

  /** The encoded text is taken for the other form of link. */
  predicate LooksLikeQuery(encoded: Bytes) {
    DOWNLOAD <= encoded && UrlValue(encoded[|DOWNLOAD|..]).Some?
  }

  lemma QueryOfEncoded(u: Bytes, how: Encoder) returns (query: Bytes)
    requires IsUtf8(u) && DOWNLOAD <= Encode(u, how)
    ensures IsUtf8(query) && |query| < |u| && Encode(u, how)[|DOWNLOAD|..] == Encode(query, how)
  {
    assert Encode(u, how)[8] == DOWNLOAD[8];
    var before, behind := TextSplits(u, how, 8);
    query := behind;
  }

  lemma ShorterDecoded(value: Bytes, how: Encoder, n: nat)
    requires KeepsAscii(how) && EncodesShorter(value, how, n)
    ensures PercentDecode(value).Some? && |PercentDecode(value).value| <= n
  {
    var v :| IsUtf8(v) && |v| <= n && value == Encode(v, how);
    DecodeUndoesEncode(v, how);
  }

  lemma QueryLoses(u: Bytes, how: Encoder)
    requires IsUtf8(u) && KeepsAscii(how) && LooksLikeQuery(Encode(u, how))
    ensures var r := PercentDecode(UrlValue(Encode(u, how)[|DOWNLOAD|..]).value); r.Some? && |r.value| < |u|
  {
    var query := QueryOfEncoded(u, how);
    UrlOfEncoded(query, how);
    ShorterDecoded(UrlValue(Encode(query, how)).value, how, |query|);
  }

  /** The other form of link, with the encoded text right after the scheme: slashes kept at the start
      of the text are taken for the link's own, and a text that looks like the first form for that
      form. So it comes back exactly when it begins with no kept slash and does not look like that. */
  lemma BareLinkRoundTripIff(u: Bytes, how: Encoder, scheme: Bytes, slashes: nat)
    requires IsUtf8(u) && KeepsAscii(how) && Lower(scheme) == SCHEME
    ensures NormalizeCaptureUrl(scheme + (Slashes(slashes) + Encode(u, how))) == Some(u)
       <==> !(SLASH in how.keep && [SLASH] <= u) && !LooksLikeQuery(Encode(u, how))
  {
    var bare := LessSlashes(u, how);
    PastScheme(scheme, slashes, Encode(u, how));
    EncodedLessSlashes(u, how);
    TrimmedIsUtf8(u);
    TrimShortens(u);
    if LooksLikeQuery(Encode(bare, how)) {
      QueryLoses(bare, how);
    } else {
      DecodeUndoesEncode(bare, how);
    }
  }

  lemma {:induction false} KeptIsUnchanged(u: Bytes, how: Encoder)
    requires forall b <- u :: b in how.keep
    ensures Encode(u, how) == u
  {
    if u != [] {
      KeptIsUnchanged(u[1..], how);
      assert u == [u[0]] + u[1..];
    }
  }

  /** Such texts: of "download?url=" followed by a text, only the latter comes back. */
  lemma QueryTakenForLink(v: Bytes, how: Encoder)
    requires KeepsAscii(how) && AMPERSAND !in how.keep && forall b <- DOWNLOAD + (URL_FIELD + v) :: b in how.keep
    ensures var u := DOWNLOAD + (URL_FIELD + v);
      IsUtf8(u) && NormalizeCaptureUrl(SCHEME + Encode(u, how)) == Some(v)
  {
    var field := URL_FIELD + v;
    var u := DOWNLOAD + field;
    assert forall b <- v :: b in field;
    assert forall b <- field :: b in u;
    AsciiIsUtf8(u);
    AsciiIsUtf8(v);
    KeptIsUnchanged(u, how);
    KeptIsUnchanged(v, how);
    LowerKeeps(SCHEME);
    LinkRoundTrip(v, how, SCHEME, 0, [], []);
    assert [] + (field + []) == field && Slashes(0) + u == u;
  }

  lemma {:induction false} AsciiIsUtf8(u: Bytes)
    requires forall b <- u :: b < 0x80
    ensures IsUtf8(u)
    decreases |u|
  {
    if u != [] {
      assert u[0] in u && forall b <- u[1..] :: b in u;
      AsciiIsUtf8(u[1..]);
    }
  }

  lemma {:induction false} LowerKeeps(s: Bytes)
    requires forall b <- s :: !(65 <= b <= 90)
    ensures Lower(s) == s
  {
    if s != [] {
      assert s[0] in s && forall b <- s[1..] :: b in s;
      LowerKeeps(s[1..]);
    }
  }
}
