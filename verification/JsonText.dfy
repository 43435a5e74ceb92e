/** The text of JSON strings: escapes out, escapes in, and UTF-8.

  A char stands for a byte.  Reading at the end of a text gives the NUL that terminates it. */
module JsonText {
  import opened Tasks

  function At(data: string, i: nat): char { if i < |data| then data[i] else '\0' }

  // ---------- out ----------

  function HexDigit(n: nat): char
    requires n < 16
  {
    "0123456789abcdef"[n]
  }

  /** char2escape, or the byte itself. */
  function Escape(c: char): string {
    if c == '"' then "\\\""
    else if c == '\\' then "\\\\"
    else if c == '/' then "\\/"
    else if c as int == 8 then "\\b"
    else if c == '\t' then "\\t"
    else if c == '\n' then "\\n"
    else if c as int == 12 then "\\f"
    else if c == '\r' then "\\r"
    else if c as int < 32 || c as int == 127 then "\\u00" + [HexDigit(c as int / 16), HexDigit(c as int % 16)]
    else [c]
  }

  ghost function Escaped(s: string): string { if s == "" then "" else Escape(s[0]) + Escaped(s[1..]) }

  ghost function Quoted(s: string): string { "\"" + Escaped(s) + "\"" }

  /** The reservation of the encoder covers every string. */
  lemma {:induction false} QuotedFits(s: string)
    ensures |Quoted(s)| <= |s| * 6 + 2
  {
    if s != "" {
      QuotedFits(s[1..]);
    }
  }

  // ---------- in ----------

  function HexValue(c: char): int {
    if '0' <= c <= '9' then c as int - '0' as int
    else if 'a' <= c <= 'f' then 10 + c as int - 'a' as int
    else if 'A' <= c <= 'F' then 10 + c as int - 'A' as int
    else -1
  }

  /** decode_hex4. */
  function Hex4(data: string, i: nat): Option<nat> {
    var a, b, c, d := HexValue(At(data, i)), HexValue(At(data, i + 1)), HexValue(At(data, i + 2)), HexValue(At(data, i + 3));
    if a < 0 || b < 0 || c < 0 || d < 0 then None else Some(a * 4096 + b * 256 + c * 16 + d)
  }

  /** codepoint_to_utf8, shifts and masks written as divisions and remainders; empty for what it refuses. */
  function Utf8(cp: nat): string {
    if cp <= 0x7F then [cp as char]
    else if cp <= 0x7FF then [(0xC0 + cp / 64) as char, (0x80 + cp % 64) as char]
    else if cp <= 0xFFFF then [(0xE0 + cp / 4096) as char, (0x80 + cp / 64 % 64) as char, (0x80 + cp % 64) as char]
    else if cp <= 0x1FFFFF then
      [(0xF0 + cp / 262144) as char, (0x80 + cp / 4096 % 64) as char, (0x80 + cp / 64 % 64) as char, (0x80 + cp % 64) as char]
    else ""
  }

  /** (unit & 0xF800) == 0xD800, and its two halves. */
  predicate Surrogate(unit: nat) { 0xD800 <= unit <= 0xDFFF }

  predicate HighSurrogate(unit: nat) { 0xD800 <= unit <= 0xDBFF }

  predicate LowSurrogate(unit: nat) { 0xDC00 <= unit <= 0xDFFF }

  /** json_append_unicode_escape, for the escape at `i`: the bytes and the index behind it. */
  function UnicodeEscape(data: string, i: nat): Option<(string, nat)> {
    var unit := Hex4(data, i + 2);
    if unit.None? then None
    else if !Surrogate(unit.value) then Some((Utf8(unit.value), i + 6))
    else if !HighSurrogate(unit.value) then None
    else if At(data, i + 6) != '\\' || At(data, i + 7) != 'u' then None
    else
      var low := Hex4(data, i + 8);
      if low.None? || !LowSurrogate(low.value) then None
      else Some((Utf8((unit.value % 1024) * 1024 + low.value % 1024 + 0x10000), i + 12))
  }

  /** escape2char. */
  function Unescaped(c: char): Option<char> {
    match c
    case '"' => Some('"')
    case '\\' => Some('\\')
    case '/' => Some('/')
    case 'b' => Some(8 as char)
    case 't' => Some('\t')
    case 'n' => Some('\n')
    case 'f' => Some(12 as char)
    case 'r' => Some('\r')
    case _ => None
  }

  lemma Hex4Bound(data: string, i: nat)
    requires Hex4(data, i).Some?
    ensures Hex4(data, i).value < 65536 && i + 4 <= |data|
  {
  }

  /** An escape is never shorter than the bytes it stands for, and ends within the text. */
  lemma EscapeShrinks(data: string, i: nat)
    requires UnicodeEscape(data, i).Some?
    ensures var (bytes, next) := UnicodeEscape(data, i).value; 0 < |bytes| <= next - i && i < next <= |data|
  {
    Hex4Bound(data, i + 2);
    if Surrogate(Hex4(data, i + 2).value) {
      Hex4Bound(data, i + 8);
    }
  }

  /** The string whose text goes on at `i`, and the index behind its closing quote. */
  function Unquote(data: string, i: nat): Option<(string, nat)>
    decreases |data| - i
  {
    var c := At(data, i);
    if c == '"' then Some(("", i + 1))
    else if c == '\0' then None
    else if c == '\\' && At(data, i + 1) == 'u' then
      var e := UnicodeEscape(data, i);
      if e.None? then None
      else
        assert i < e.value.1 <= |data| by { EscapeShrinks(data, i); }
        Prepend(e.value.0, Unquote(data, e.value.1))
    else if c == '\\' then
      var e := Unescaped(At(data, i + 1));
      if e.None? then None else Prepend([e.value], Unquote(data, i + 2))
    else Prepend([c], Unquote(data, i + 1))
  }

  function Prepend(s: string, r: Option<(string, nat)>): Option<(string, nat)> {
    if r.None? then None else Some((s + r.value.0, r.value.1))
  }

  // ---------- out and in again ----------

  /** `t` stands in the text at `i`. */
  ghost predicate Stands(data: string, i: nat, t: string) { i + |t| <= |data| && data[i..i + |t|] == t }

  lemma StandsSplit(data: string, i: nat, a: string, b: string)
    requires Stands(data, i, a + b)
    ensures Stands(data, i, a) && Stands(data, i + |a|, b)
  {
    assert data[i..i + |a + b|] == a + b;
    assert data[i..i + |a|] == (a + b)[..|a|] == a;
    assert data[i + |a|..i + |a| + |b|] == (a + b)[|a|..] == b;
  }

  lemma StandsAt(data: string, i: nat, t: string, k: nat)
    requires Stands(data, i, t) && k < |t|
    ensures At(data, i + k) == t[k]
  {
    assert data[i..i + |t|][k] == t[k];
  }

  lemma HexRoundTrip(n: nat)
    requires n < 16
    ensures HexValue(HexDigit(n)) == n
  {
  }

  /** What Escape writes, Unquote reads. */
  lemma EscapeRead(data: string, i: nat, c: char)
    requires Stands(data, i, Escape(c))
    ensures Unquote(data, i) == Prepend([c], Unquote(data, i + |Escape(c)|))
  {
    var e := Escape(c);
    StandsAt(data, i, e, 0);
    if |e| > 1 {
      StandsAt(data, i, e, 1);
    }
    if |e| == 6 {
      StandsAt(data, i, e, 2);
      StandsAt(data, i, e, 3);
      StandsAt(data, i, e, 4);
      StandsAt(data, i, e, 5);
      HexRoundTrip(c as int / 16);
      HexRoundTrip(c as int % 16);
      assert Hex4(data, i + 2) == Some(c as int);
      assert UnicodeEscape(data, i) == Some(([c], i + 6));
    }
  }

  lemma UnquoteEnd(data: string, i: nat)
    requires Stands(data, i, "\"")
    ensures Unquote(data, i) == Some(("", i + 1))
  {
    StandsAt(data, i, "\"", 0);
  }

  /** Every byte string survives being escaped and unescaped, whatever comes before and after it. */
  lemma {:induction false} EscapedRead(data: string, i: nat, s: string)
    requires Stands(data, i, Escaped(s) + "\"")
    ensures Unquote(data, i) == Some((s, i + |Escaped(s)| + 1))
    decreases |s|
  {
    hide Unquote, Stands, Escape;
    if s == "" {
      assert Escaped(s) + "\"" == "\"";
      UnquoteEnd(data, i);
    } else {
      var e := Escape(s[0]);
      assert Escaped(s) + "\"" == e + (Escaped(s[1..]) + "\"");
      StandsSplit(data, i, e, Escaped(s[1..]) + "\"");
      EscapeRead(data, i, s[0]);
      EscapedRead(data, i + |e|, s[1..]);
      assert [s[0]] + s[1..] == s;
    }
  }

  // ---------- Unicode ----------

  /** A Unicode scalar value: a code point that is not a surrogate. */
  ghost predicate Scalar(cp: nat) { cp <= 0x10FFFF && !Surrogate(cp) }

  /** A byte 10xxxxxx. */
  ghost predicate Trail(c: char) { 0x80 <= c as int < 0xC0 }

  /** The scalar value that a byte sequence encodes by section 3 of RFC 3629, with its prohibition of
    overlong forms, surrogates and values above 10FFFF. */
  ghost function Rfc3629(b: string): Option<nat> {
    if |b| == 1 && b[0] as int < 0x80 then Some(b[0] as int)
    else if |b| == 2 && 0xC0 <= b[0] as int < 0xE0 && Trail(b[1]) then
      var cp := (b[0] as int - 0xC0) * 64 + (b[1] as int - 0x80);
      if cp < 0x80 then None else Some(cp)
    else if |b| == 3 && 0xE0 <= b[0] as int < 0xF0 && Trail(b[1]) && Trail(b[2]) then
      var cp := (b[0] as int - 0xE0) * 4096 + (b[1] as int - 0x80) * 64 + (b[2] as int - 0x80);
      if cp < 0x800 || Surrogate(cp) then None else Some(cp)
    else if |b| == 4 && 0xF0 <= b[0] as int < 0xF8 && Trail(b[1]) && Trail(b[2]) && Trail(b[3]) then
      var cp := (b[0] as int - 0xF0) * 262144 + (b[1] as int - 0x80) * 4096 + (b[2] as int - 0x80) * 64 + (b[3] as int - 0x80);
      if cp < 0x10000 || cp > 0x10FFFF then None else Some(cp)
    else None
  }

  /** codepoint_to_utf8 writes the one encoding of a scalar value. */
  lemma Utf8IsRfc3629(cp: nat, b: string)
    requires Scalar(cp)
    ensures b == Utf8(cp) <==> Rfc3629(b) == Some(cp)
  {
    if b == Utf8(cp) {
      Utf8Reads(cp);
    } else if Rfc3629(b) == Some(cp) {
      Utf8Unique(cp, b);
    }
  }

  lemma Utf8Reads(cp: nat)
    requires Scalar(cp)
    ensures Rfc3629(Utf8(cp)) == Some(cp)
  {
    if 0x7F < cp <= 0x7FF {
      assert cp == cp / 64 * 64 + cp % 64;
    } else if 0x7FF < cp <= 0xFFFF {
      ThreeDigits(cp);
    } else if 0xFFFF < cp {
      FourDigits(cp);
    }
  }

  lemma ThreeDigits(cp: nat)
    requires 0x7FF < cp <= 0xFFFF
    ensures |Utf8(cp)| == 3 && 0xE0 <= Utf8(cp)[0] as int < 0xF0 && Trail(Utf8(cp)[1]) && Trail(Utf8(cp)[2])
    ensures cp == (Utf8(cp)[0] as int - 0xE0) * 4096 + (Utf8(cp)[1] as int - 0x80) * 64 + (Utf8(cp)[2] as int - 0x80)
  {
    assert cp / 64 == cp / 4096 * 64 + cp / 64 % 64;
  }

  lemma FourDigits(cp: nat)
    requires 0xFFFF < cp <= 0x10FFFF
    ensures |Utf8(cp)| == 4 && 0xF0 <= Utf8(cp)[0] as int < 0xF8 && Trail(Utf8(cp)[1]) && Trail(Utf8(cp)[2]) && Trail(Utf8(cp)[3])
    ensures cp == (Utf8(cp)[0] as int - 0xF0) * 262144 + (Utf8(cp)[1] as int - 0x80) * 4096 + (Utf8(cp)[2] as int - 0x80) * 64 + (Utf8(cp)[3] as int - 0x80)
  {
    assert cp / 64 == cp / 4096 * 64 + cp / 64 % 64;
    assert cp / 4096 == cp / 262144 * 64 + cp / 4096 % 64;
  }

  lemma Utf8Unique(cp: nat, b: string)
    requires Rfc3629(b) == Some(cp)
    ensures b == Utf8(cp)
  {
    if |b| == 1 {
      assert b == [b[0]];
    } else if |b| == 2 {
      assert cp / 64 == b[0] as int - 0xC0 && cp % 64 == b[1] as int - 0x80;
    } else if |b| == 3 {
      UniqueThree(cp, b);
    } else {
      UniqueFour(cp, b);
    }
  }

  /** The digits of a number to the base of 64. */
  lemma Base64(a: nat, b: nat, c: nat)
    requires b < 64 && c < 64
    ensures var n := a * 4096 + b * 64 + c; n / 4096 == a && n / 64 % 64 == b && n % 64 == c && n / 64 == a * 64 + b
  {
    var n := a * 4096 + b * 64 + c;
    assert n / 64 == a * 64 + b;
  }

  lemma UniqueThree(cp: nat, b: string)
    requires |b| == 3 && Rfc3629(b) == Some(cp)
    ensures b == Utf8(cp)
  {
    var x, y, z := b[0] as int - 0xE0, b[1] as int - 0x80, b[2] as int - 0x80;
    Base64(x, y, z);
    assert cp == x * 4096 + y * 64 + z;
    assert b == [b[0], b[1], b[2]];
  }

  lemma UniqueFour(cp: nat, b: string)
    requires |b| == 4 && Rfc3629(b) == Some(cp)
    ensures b == Utf8(cp)
  {
    var w, x, y, z := b[0] as int - 0xF0, b[1] as int - 0x80, b[2] as int - 0x80, b[3] as int - 0x80;
    assert cp == w * 262144 + x * 4096 + y * 64 + z;
    Base64(w * 64 + x, y, z);
    assert cp / 4096 == w * 64 + x && cp / 262144 == w && cp / 4096 % 64 == x;
    assert b == [b[0], b[1], b[2], b[3]];
  }

  /** At `i` stands an escape for the scalar value `cp`, by section 7 of RFC 8259, which ends before `next`. */
  ghost predicate Escapes(data: string, i: nat, cp: nat, next: nat) {
    if cp < 0x10000 then Scalar(cp) && Hex4(data, i + 2) == Some(cp) && next == i + 6
    else
      && Scalar(cp)
      && Hex4(data, i + 2) == Some(0xD800 + (cp - 0x10000) / 1024)
      && At(data, i + 6) == '\\' && At(data, i + 7) == 'u'
      && Hex4(data, i + 8) == Some(0xDC00 + (cp - 0x10000) % 1024)
      && next == i + 12
  }

  /** The escapes that are accepted are those of scalar values, and their bytes are the UTF-8 form of these:
    lone and swapped surrogates are rejected. */
  lemma EscapesExactly(data: string, i: nat, bytes: string, next: nat)
    ensures UnicodeEscape(data, i) == Some((bytes, next)) <==> exists cp: nat :: Escapes(data, i, cp, next) && Rfc3629(bytes) == Some(cp)
  {
    hide Escapes, Rfc3629, UnicodeEscape;
    if UnicodeEscape(data, i) == Some((bytes, next)) {
      var cp := EscapeMeans(data, i);
    }
    if cp: nat :| Escapes(data, i, cp, next) && Rfc3629(bytes) == Some(cp) {
      Utf8Unique(cp, bytes);
      EscapeAccepted(data, i, cp, next);
    }
  }

  lemma EscapeMeans(data: string, i: nat) returns (cp: nat)
    requires UnicodeEscape(data, i).Some?
    ensures var (bytes, next) := UnicodeEscape(data, i).value; Escapes(data, i, cp, next) && Rfc3629(bytes) == Some(cp)
  {
    hide Rfc3629, Utf8, Hex4;
    var unit := Hex4(data, i + 2).value;
    Hex4Bound(data, i + 2);
    if !Surrogate(unit) {
      cp := unit;
    } else {
      var low := Hex4(data, i + 8).value;
      cp := (unit % 1024) * 1024 + low % 1024 + 0x10000;
      assert unit % 1024 == unit - 0xD800 && low % 1024 == low - 0xDC00;
    }
    Utf8Reads(cp);
  }

  lemma EscapeAccepted(data: string, i: nat, cp: nat, next: nat)
    requires Escapes(data, i, cp, next)
    ensures UnicodeEscape(data, i) == Some((Utf8(cp), next))
  {
    hide Utf8, Hex4;
    if cp >= 0x10000 {
      var n := cp - 0x10000;
      assert (0xD800 + n / 1024) % 1024 == n / 1024 && (0xDC00 + n % 1024) % 1024 == n % 1024;
    }
  }
}
