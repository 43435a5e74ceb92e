/** The URL coding of lcodec.c: one loop that stages its output, one that decodes in place. */
module UrlCodec {
  import opened Buffers

  /** What code_table holds of a character: itself for what is to be escaped, 1 for a hexadecimal digit. */
  function Code(c: byte): byte {
    if Reserved(c) || c >= 128 then c else if HexDigit(c) then 1 else 0
  }

  predicate Reserved(c: byte) {
    c == ';' as int || c == '/' as int || c == '?' as int || c == ':' as int || c == '@' as int
    || c == '&' as int || c == '=' as int || c == '+' as int || c == '$' as int || c == ',' as int
  }

  predicate HexDigit(c: byte) { 48 <= c <= 57 || 97 <= c <= 102 || 65 <= c <= 70 }

  /** xdigits, of which the encoder uses the lower-case digits. */
  function Digit(n: nat): (c: byte)
    requires n < 16
    ensures HexDigit(c) && XValue(c) == n
  {
    if n < 10 then 48 + n else 97 + n - 10
  }

  function XValue(c: byte): (n: int)
    ensures HexDigit(c) ==> 0 <= n < 16
  {
    if 48 <= c <= 57 then c - 48 else if 65 <= c <= 70 then c - 65 + 10 else c - 97 + 10
  }

  const PERCENT: byte := 37
  const PLUS: byte := 43
  const SPACE: byte := 32

  function Unit(c: byte): (u: seq<byte>)
    ensures 1 <= |u| <= 3
  {
    var code := Code(c);
    if code != 0 && code != 1 then [PERCENT, Digit(code / 16), Digit(code % 16)]
    else [if c != SPACE then c else PLUS]
  }

  /** What the C library takes a string to be. */
  function CString(s: seq<byte>): (r: seq<byte>)
    ensures r <= s && 0 !in r && (|r| < |s| ==> s[|r|] == 0)
  {
    if s == [] || s[0] == 0 then [] else [s[0]] + CString(s[1..])
  }

  lemma CStringIs(s: seq<byte>)
    requires 0 !in s
    ensures CString(s) == s
  {
  }

  ghost function Encoded(s: seq<byte>): seq<byte> {
    if s == [] then [] else Encoded(s[..|s| - 1]) + Unit(s[|s| - 1])
  }

  /** A percent sign and two digits. */
  predicate EscapeAt(s: seq<byte>, i: nat) {
    i + 2 < |s| && s[i] == PERCENT && HexDigit(s[i + 1]) && HexDigit(s[i + 2])
  }

  function Decoded(s: seq<byte>): (r: seq<byte>)
    ensures |r| <= |s|
  {
    if s == [] then []
    else if EscapeAt(s, 0) then [XValue(s[1]) * 16 + XValue(s[2])] + Decoded(s[3..])
    else [if s[0] == PLUS then SPACE else s[0]] + Decoded(s[1..])
  }

  // ---------- the loops ----------

  /** lcodec_urlencode, into a buffer. */
  method UrlEncode(src: seq<byte>, buf: Buffer)
    requires buf.Valid()
    modifies buf, buf.mem
    ensures buf.Valid() && buf.Content() == old(buf.Content()) + Encoded(CString(src))
  {
    hide CString, Unit, Encoded;
    var chbuf := new byte[36];
    var p, i := 0, 0;
    ghost var s, text := buf.Content(), CString(src);
    EncodedNone(text[..0]);
    assert chbuf[..0] == [];
    while i < |src| && src[i] != 0
      invariant i <= |text| && 0 <= p <= 34 && (i < |src| && src[i] != 0 ==> i < |text|) && (i < |text| ==> i < |src| && src[i] != 0)
      invariant buf.Valid() && (buf.mem == old(buf.mem) || fresh(buf.mem)) && buf.mem != chbuf
      invariant buf.Content() + chbuf[..p] == s + Encoded(text[..i])
    {
      ghost var before := buf.Content() + chbuf[..p];
      p := Stage(buf, chbuf, p, Unit(src[i]));
      assert before == s + Encoded(text[..i]);
      EncodedNext(text, i);
      i := i + 1;
    }
    assert text[..i] == text;
    if p > 0 {
      buf.Push(chbuf[..p]);
    }
  }

  /** What is staged goes into the buffer when there might not be room for another three characters. */
  method Stage(buf: Buffer, chbuf: array<byte>, p: nat, unit: seq<byte>) returns (q: nat)
    requires buf.Valid() && buf.mem != chbuf && p <= 34 && |unit| <= 3 && chbuf.Length == 36
    modifies buf, buf.mem, chbuf
    ensures buf.Valid() && buf.mem != chbuf && (buf.mem == old(buf.mem) || fresh(buf.mem)) && q <= 34
    ensures buf.Content() + chbuf[..q] == old(buf.Content() + chbuf[..p]) + unit
  {
    q := p;
    if p >= 32 {
      buf.Push(chbuf[..p]);
      q := 0;
    }
    ghost var s, staged := buf.Content(), chbuf[..q];
    assert s + staged == old(buf.Content() + chbuf[..p]);
    forall k | 0 <= k < |unit| {
      chbuf[q + k] := unit[k];
    }
    q := q + |unit|;
    assert chbuf[..q] == staged + unit;
    assert buf.Content() == s;
  }

  lemma EncodedNone(s: seq<byte>)
    requires s == []
    ensures Encoded(s) == []
  {
  }

  lemma EncodedNext(s: seq<byte>, i: nat)
    requires i < |s|
    ensures Encoded(s[..i + 1]) == Encoded(s[..i]) + Unit(s[i])
  {
    assert s[..i + 1][..i] == s[..i];
  }

  /** urldecode, in place: what is written never overtakes what is read. */
  method DecodeInPlace(str: array<byte>, ghost s: seq<byte>)
    requires |s| < str.Length && str[..|s|] == s && 0 !in s && str[|s|] == 0
    modifies str
    ensures |Decoded(s)| < str.Length && str[..|Decoded(s)|] == Decoded(s) && str[|Decoded(s)|] == 0
  {
    hide Decoded, XValue, EscapeAt;
    var src, dst := 0, 0;
    assert s[0..] == s && [] + Decoded(s) == Decoded(s);
    while str[src] != 0
      invariant dst <= src <= |s| && (forall k :: src <= k < |s| ==> str[k] == s[k]) && str[|s|] == 0
      invariant str[..dst] + Decoded(s[src..]) == Decoded(s)
      decreases |s| - src
    {
      ghost var done := str[..dst];
      assert str[src] == s[src];
      DecodedNext(s, src);
      src := DecodeOne(str, src, dst, s);
      dst := dst + 1;
      assert str[..dst] == done + [str[dst - 1]];
    }
    DecodedNone(s[src..]);
    str[dst] := 0;
  }

  /** A character, or an escape, at `src` is decoded to `dst`. */
  method DecodeOne(str: array<byte>, src: nat, dst: nat, ghost s: seq<byte>) returns (next: nat)
    requires dst <= src < |s| < str.Length && (forall k :: src <= k < |s| ==> str[k] == s[k]) && str[|s|] == 0
    modifies str
    ensures src < next <= |s| && next == src + if EscapeAt(s, src) then 3 else 1
    ensures str[dst] == if EscapeAt(s, src) then XValue(s[src + 1]) * 16 + XValue(s[src + 2]) else if s[src] == PLUS then SPACE else s[src]
    ensures forall k :: 0 <= k < str.Length && k != dst ==> str[k] == old(str[k])
  {
    hide XValue;
    if str[src] == PERCENT && HexDigit(str[src + 1]) && HexDigit(str[src + 2]) {
      str[dst] := XValue(str[src + 1]) * 16 + XValue(str[src + 2]);
      next := src + 3;
    } else {
      if str[src] == PLUS {
        str[dst] := SPACE;
      } else if dst != src {
        str[dst] := str[src];
      }
      next := src + 1;
    }
  }

  lemma DecodedNone(s: seq<byte>)
    requires s == []
    ensures Decoded(s) == []
  {
  }

  lemma DecodedNext(s: seq<byte>, i: nat)
    requires i < |s|
    ensures Decoded(s[i..]) ==
      if EscapeAt(s, i) then [XValue(s[i + 1]) * 16 + XValue(s[i + 2])] + Decoded(s[i + 3..])
      else [if s[i] == PLUS then SPACE else s[i]] + Decoded(s[i + 1..])
  {
    assert EscapeAt(s, i) <==> EscapeAt(s[i..], 0);
    assert s[i..][1..] == s[i + 1..];
    if EscapeAt(s, i) {
      assert s[i..][3..] == s[i + 3..];
    }
  }

  /** lcodec_urldecode: what the escape for a NUL comes to ends the result. */
  method UrlDecode(src: seq<byte>) returns (res: seq<byte>)
    ensures res == CString(Decoded(CString(src)))
  {
    hide Decoded;
    var out := new byte[|src| + 1](i requires 0 <= i < |src| + 1 => if i < |src| then src[i] else 0);
    ghost var s := CString(src);
    assert out[..|s|] == s;
    DecodeInPlace(out, s);
    ghost var d := Decoded(s);
    var n := 0;
    while out[n] != 0
      invariant n <= |CString(d)|
      invariant forall k :: 0 <= k < n ==> out[k] == d[k]
      decreases |d| - n
    {
      assert n < |d| && out[n] == out[..|d|][n] == d[n];
      n := n + 1;
    }
    res := out[..n];
  }

  // ---------- the round trip ----------

  /** The text with its own escapes resolved, and a plus sign left as it is. */
  ghost function Collapsed(s: seq<byte>): (r: seq<byte>)
    ensures |r| <= |s|
  {
    if s == [] then []
    else if EscapeAt(s, 0) then [XValue(s[1]) * 16 + XValue(s[2])] + Collapsed(s[3..])
    else [s[0]] + Collapsed(s[1..])
  }

  /** As a percent sign is not escaped, decoding resolves the escapes that were in the text before. */
  lemma {:induction false} DecodedEncoded(s: seq<byte>)
    ensures Decoded(Encoded(s)) == Collapsed(s)
    decreases |s|
  {
    hide Encoded, Decoded, Unit, XValue;
    if s == [] {
      EncodedNone(s);
      DecodedNone(s);
    } else if EscapeAt(s, 0) {
      EncodedEscape(s);
      DecodedNext(Encoded(s), 0);
      assert Encoded(s)[0..] == Encoded(s) && Encoded(s)[3..] == Encoded(s[3..]);
      DecodedEncoded(s[3..]);
    } else {
      EncodedFirst(s);
      if |Unit(s[0])| == 1 {
        NoEscape(s);
      }
      DecodedUnit(s[0], Encoded(s[1..]));
      DecodedEncoded(s[1..]);
    }
  }

  lemma EncodedEscape(s: seq<byte>)
    requires EscapeAt(s, 0)
    ensures Encoded(s) == s[..3] + Encoded(s[3..])
  {
    hide Encoded;
    EncodedFirst(s);
    EncodedFirst(s[1..]);
    EncodedFirst(s[2..]);
    assert s[1..][1..] == s[2..] && s[2..][1..] == s[3..];
    assert Unit(s[0]) == [s[0]] && Unit(s[1]) == [s[1]] && Unit(s[2]) == [s[2]];
  }

  /** A character comes back, unless encoding left it as it is and makes an escape of it with what follows. */
  lemma DecodedUnit(c: byte, rest: seq<byte>)
    requires |Unit(c)| == 1 ==> !EscapeAt(Unit(c) + rest, 0)
    ensures Decoded(Unit(c) + rest) == [c] + Decoded(rest)
  {
    hide Decoded;
    var e := Unit(c) + rest;
    DecodedNext(e, 0);
    assert e[0..] == e && e[|Unit(c)|..] == rest;
    if |Unit(c)| == 3 {
      assert e[0] == PERCENT && e[1] == Digit(c / 16) && e[2] == Digit(c % 16);
    }
  }

  lemma {:induction false} EncodedFirst(s: seq<byte>)
    requires s != []
    ensures Encoded(s) == Unit(s[0]) + Encoded(s[1..])
  {
    var n := |s| - 1;
    if n > 0 {
      EncodedFirst(s[..n]);
      assert s[..n][1..] == s[1..][..n - 1];
    } else {
      assert s[..0] == [] && s[1..] == [];
    }
  }

  /** Where there was no escape, encoding makes none out of unescaped characters. */
  lemma NoEscape(s: seq<byte>)
    requires s != [] && !EscapeAt(s, 0) && |Unit(s[0])| == 1
    ensures !EscapeAt(Encoded(s), 0)
  {
    hide Encoded, Unit;
    EncodedFirst(s);
    UnitFirst(s[0]);
    if s[0] == PERCENT && |s| > 1 {
      EncodedFirst(s[1..]);
      UnitFirst(s[1]);
      if HexDigit(s[1]) && |s| > 2 {
        EncodedFirst(s[2..]);
        UnitFirst(s[2]);
        assert s[1..][1..] == s[2..] && s[2..][1..] == s[3..];
        assert Encoded(s) == [PERCENT, s[1]] + (Unit(s[2]) + Encoded(s[3..]));
      } else if HexDigit(s[1]) {
        EncodedNone(s[1..][1..]);
        assert Encoded(s) == [PERCENT, s[1]];
      } else {
        assert Encoded(s) == [PERCENT] + (Unit(s[1]) + Encoded(s[1..][1..]));
      }
    } else if |s| == 1 {
      EncodedNone(s[1..]);
    }
  }

  lemma UnitFirst(c: byte)
    ensures HexDigit(Unit(c)[0]) ==> Unit(c) == [c]
    ensures HexDigit(c) || c == PERCENT ==> Unit(c) == [c]
    ensures |Unit(c)| == 1 && Unit(c)[0] == PERCENT ==> c == PERCENT
  {
  }

  /** The round trip gives back the text if and only if there is no NUL in it and no percent sign with two
    digits behind it. */
  lemma UrlRoundTrip(s: seq<byte>)
    ensures CString(Decoded(CString(Encoded(CString(s))))) == s <==> 0 !in s && forall i: nat :: !EscapeAt(s, i)
  {
    hide Decoded, Encoded;
    var t := CString(s);
    EncodedNoNul(t);
    CStringIs(Encoded(t));
    DecodedEncoded(t);
    CollapsedSame(t);
    if 0 !in s {
      CStringIs(s);
      if Collapsed(t) == t {
        assert 0 !in t;
        CStringIs(t);
      }
    }
  }

  lemma {:induction false} EncodedNoNul(s: seq<byte>)
    requires 0 !in s
    ensures 0 !in Encoded(s)
  {
    if s != [] {
      EncodedNoNul(s[..|s| - 1]);
      assert s[|s| - 1] in s;
    }
  }

  lemma {:induction false} CollapsedSame(s: seq<byte>)
    ensures Collapsed(s) == s <==> |Collapsed(s)| == |s|
    ensures Collapsed(s) == s <==> forall i: nat :: !EscapeAt(s, i)
    decreases |s|
  {
    if s != [] {
      if !EscapeAt(s, 0) {
        CollapsedSame(s[1..]);
        assert forall i: nat :: EscapeAt(s[1..], i) <==> EscapeAt(s, i + 1);
        if i: nat :| EscapeAt(s, i) {
          assert EscapeAt(s[1..], i - 1);
        }
      }
    }
  }

  // ---------- what the texts look like ----------

  /** Characters as bytes. */
  ghost function Ascii(s: string): seq<int> { seq(|s|, i requires 0 <= i < |s| => s[i] as int) }

  ghost function Lower(): seq<int> { Ascii("0123456789abcdef") }

  ghost function Upper(): seq<int> { Ascii("0123456789ABCDEF") }

  /** The characters that are escaped, but for the plus sign. */
  ghost function Special(): seq<int> { Ascii(";/?:@&=$,") }

  lemma HexDigits(n: nat)
    requires n < 16
    ensures |Lower()| == |Upper()| == 16 && Digit(n) == Lower()[n] && HexDigit(Lower()[n] as byte) && HexDigit(Upper()[n] as byte)
    ensures XValue(Lower()[n] as byte) == n && XValue(Upper()[n] as byte) == n
  {
  }

  /** A reserved character, and every byte from 128 on, is a percent sign and its two digits to the base 16, a space is
    a plus sign, and everything else is itself. */
  lemma UnitIs(c: byte)
    ensures |Lower()| == 16
    ensures Unit(c) ==
      if c as int in Special() + Ascii("+") || c >= 128 then [37, Digit(c / 16), Digit(c % 16)]
      else if c == 32 then [43] else [c]
    ensures Digit(c / 16) == Lower()[c / 16] && Digit(c % 16) == Lower()[c % 16]
  {
    hide Digit;
    HexDigits(c / 16);
    HexDigits(c % 16);
    ReservedIs(c);
  }

  lemma ReservedIs(c: byte)
    ensures Reserved(c) <==> c as int in Special() + Ascii("+")
  {
    assert Special() + Ascii("+") == [59, 47, 63, 58, 64, 38, 61, 36, 44, 43];
  }

  /** An encoded text is plain: no byte from 128 on and no reserved character in it, but a plus sign for every space. */
  lemma {:induction false} EncodedPlain(s: seq<byte>)
    ensures forall c :: c in Encoded(s) ==> c < 128 && c as int !in Special()
    ensures Count(Encoded(s), 43) == Count(s, 32)
  {
    if s != [] {
      var n := |s| - 1;
      hide Unit, Special, Count;
      EncodedPlain(s[..n]);
      UnitPlain(s[n]);
      CountJoin(Encoded(s[..n]), Unit(s[n]), 43);
      CountJoin(s[..n], [s[n]], 32);
      assert s == s[..n] + [s[n]];
    }
  }

  /** How often a byte occurs. */
  ghost function Count(s: seq<byte>, c: byte): nat { if s == [] then 0 else Count(s[..|s| - 1], c) + if s[|s| - 1] == c then 1 else 0 }

  lemma {:induction false} CountJoin(a: seq<byte>, b: seq<byte>, c: byte)
    ensures Count(a + b, c) == Count(a, c) + Count(b, c)
  {
    if b == [] {
      assert a + b == a;
    } else {
      CountJoin(a, b[..|b| - 1], c);
      assert (a + b)[..|a + b| - 1] == a + b[..|b| - 1];
    }
  }

  lemma UnitPlain(c: byte)
    ensures forall d :: d in Unit(c) ==> d < 128 && d as int !in Special()
    ensures Count(Unit(c), 43) == Count([c], 32)
  {
    hide Digit, Special, Count;
    UnitIs(c);
    DigitPlain(c / 16);
    DigitPlain(c % 16);
    SignsPlain();
    PlainOnly(c);
    CountOne(c, 32);
    if |Unit(c)| == 1 {
      CountOne(Unit(c)[0], 43);
    } else {
      CountThree(Unit(c), 43);
    }
  }

  lemma DigitPlain(n: nat)
    requires n < 16
    ensures Digit(n) < 128 && Digit(n) != 43 && Digit(n) as int !in Special()
  {
    assert Special() == [59, 47, 63, 58, 64, 38, 61, 36, 44];
  }

  lemma SignsPlain()
    ensures 37 !in Special() && 43 !in Special() && 32 !in Special() && Ascii("+") == [43]
  {
    assert Special() == [59, 47, 63, 58, 64, 38, 61, 36, 44];
  }

  lemma PlainOnly(c: byte)
    ensures |Unit(c)| == 1 ==> c as int !in Special() && c < 128 && c != 43
  {
    hide Special, Digit;
    ReservedIs(c);
    assert Ascii("+") == [43];
  }

  lemma CountOne(d: byte, c: byte)
    ensures Count([d], c) == if d == c then 1 else 0
  {
    assert [d][..0] == [];
  }

  lemma CountThree(u: seq<byte>, c: byte)
    requires |u| == 3 && c !in u
    ensures Count(u, c) == 0
  {
    var v := u[..2];
    var w := v[..1];
    assert u[2] in u && u[1] in u && u[0] in u;
    assert v[1] == u[1] && w[0] == u[0] && w[..0] == [];
    assert Count(u, c) == Count(v, c) && Count(v, c) == Count(w, c) && Count(w, c) == Count(w[..0], c);
  }

  /** An escape, with digits of either case, is the byte that the digits say; a plus sign is a space. */
  lemma DecodedIs(i: nat, j: nat, up: bool, high: bool, s: seq<byte>)
    requires i < 16 && j < 16 && |Lower()| == |Upper()| == 16
    ensures var x, y := if up then Upper()[i] else Lower()[i], if high then Upper()[j] else Lower()[j];
      Decoded([37, x as byte, y as byte] + s) == [16 * i + j] + Decoded(s)
    ensures Decoded([43] + s) == [32] + Decoded(s)
  {
    hide Lower, Upper, HexDigit, XValue;
    HexDigits(i);
    HexDigits(j);
    var x, y := if up then Upper()[i] else Lower()[i], if high then Upper()[j] else Lower()[j];
    var e: seq<byte> := [37, x as byte, y as byte] + s;
    assert e[3..] == s && EscapeAt(e, 0);
    assert ([43] + s)[1..] == s && !EscapeAt([43] + s, 0);
  }
}
