/** The padding, the functions and the tables of lmd5.c against the words of RFC 1321. */
module Md5Theorems {
  import opened Buffers
  import opened BufferTheorems
  import opened Md5

  // ---------- words and bytes ----------

  /** A word of the message has its low-order byte first. */
  lemma WordBytes(s: seq<byte>, j: nat)
    requires j + 4 <= |s|
    ensures Bytes(false, Width.Four, WordAt(s, j)) == s[j..j + 4]
  {
    hide ValueOf, Bytes;
    FourBytes(false, s[j..j + 4]);
    BytesRoundTrip(false, Width.Four, s[j..j + 4]);
  }

  lemma {:induction false} WordsBytes(s: seq<byte>)
    requires |s| % 4 == 0
    ensures AllBytes(Words(s)) == s
    decreases |s|
  {
    hide Bytes, WordAt;
    if s != [] {
      var n := |s| - 4;
      WordsBytes(s[..n]);
      WordBytes(s, n);
      assert Words(s)[..|Words(s)| - 1] == Words(s[..n]) by { FrontWords(s); }
      assert s == s[..n] + s[n..];
    }
  }

  lemma FrontWords(s: seq<byte>)
    requires |s| % 4 == 0 && s != []
    ensures Words(s)[..|Words(s)| - 1] == Words(s[..|s| - 4]) && Words(s)[|Words(s)| - 1] == WordAt(s, |s| - 4)
  {
  }

  // ---------- functions on words ----------

  /** One bit. */
  ghost predicate Single(m: bv32) { m != 0 && m & (m - 1) == 0 }

  lemma Casts(b: bv32)
    ensures (b as int) as bv32 == b
  {
  }

  /** Circular shifting, by the numbers of bits that the rounds use. */
  lemma RotatedIs(x: word, s: nat)
    requires s in {4, 5, 6, 7, 9, 10, 11, 12, 14, 15, 16, 17, 20, 21, 22, 23}
    ensures Rotated(x, s) as bv32 == Turned(x as bv32, s)
  {
    Casts((x as bv32 << s) | (x as bv32 >> (32 - s)));
    Rotation(x as bv32, s);
  }

  lemma ShiftIn(t: nat)
    requires t < 64
    ensures Shift(t) in {4, 5, 6, 7, 9, 10, 11, 12, 14, 15, 16, 17, 20, 21, 22, 23}
  {
  }

  ghost function Turned(b: bv32, s: nat): bv32 {
    if s < 32 then b.RotateLeft(s) else b
  }

  lemma Rotation(b: bv32, s: nat)
    requires s in {4, 5, 6, 7, 9, 10, 11, 12, 14, 15, 16, 17, 20, 21, 22, 23}
    ensures (b << s) | (b >> (32 - s)) == Turned(b, s)
  {
    hide Turned;
    TurnedIs(b, s);
    if s < 8 { RotationOne(b, s); } else if s < 13 { RotationTwo(b, s); } else if s < 18 { RotationThree(b, s); } else { RotationFour(b, s); }
  }

  lemma TurnedIs(b: bv32, s: nat)
    requires s < 32
    ensures Turned(b, s) == b.RotateLeft(s)
  {
  }

  lemma RotationOne(b: bv32, s: nat)
    requires s in {4, 5, 6, 7}
    ensures (b << s) | (b >> (32 - s)) == b.RotateLeft(s)
  {
    if s == 4 { assert (b << 4) | (b >> 28) == b.RotateLeft(4); }
    else if s == 5 { assert (b << 5) | (b >> 27) == b.RotateLeft(5); }
    else if s == 6 { assert (b << 6) | (b >> 26) == b.RotateLeft(6); }
    else { assert (b << 7) | (b >> 25) == b.RotateLeft(7); }
  }

  lemma RotationTwo(b: bv32, s: nat)
    requires s in {9, 10, 11, 12}
    ensures (b << s) | (b >> (32 - s)) == b.RotateLeft(s)
  {
    if s == 9 { assert (b << 9) | (b >> 23) == b.RotateLeft(9); }
    else if s == 10 { assert (b << 10) | (b >> 22) == b.RotateLeft(10); }
    else if s == 11 { assert (b << 11) | (b >> 21) == b.RotateLeft(11); }
    else { assert (b << 12) | (b >> 20) == b.RotateLeft(12); }
  }

  lemma RotationThree(b: bv32, s: nat)
    requires s in {14, 15, 16, 17}
    ensures (b << s) | (b >> (32 - s)) == b.RotateLeft(s)
  {
    if s == 14 { assert (b << 14) | (b >> 18) == b.RotateLeft(14); }
    else if s == 15 { assert (b << 15) | (b >> 17) == b.RotateLeft(15); }
    else if s == 16 { assert (b << 16) | (b >> 16) == b.RotateLeft(16); }
    else { assert (b << 17) | (b >> 15) == b.RotateLeft(17); }
  }

  lemma RotationFour(b: bv32, s: nat)
    requires s in {20, 21, 22, 23}
    ensures (b << s) | (b >> (32 - s)) == b.RotateLeft(s)
  {
    if s == 20 { assert (b << 20) | (b >> 12) == b.RotateLeft(20); }
    else if s == 21 { assert (b << 21) | (b >> 11) == b.RotateLeft(21); }
    else if s == 22 { assert (b << 22) | (b >> 10) == b.RotateLeft(22); }
    else { assert (b << 23) | (b >> 9) == b.RotateLeft(23); }
  }

  /** If x then y else z, in every bit. */
  lemma FIs(x: word, y: word, z: word, m: bv32)
    requires Single(m)
    ensures F(x, y, z) as bv32 & m == if x as bv32 & m != 0 then y as bv32 & m else z as bv32 & m
  {
    Casts((x as bv32 & y as bv32) | (!(x as bv32) & z as bv32));
    Chosen(x as bv32, y as bv32, z as bv32, m);
  }

  lemma Chosen(x: bv32, y: bv32, z: bv32, m: bv32)
    requires Single(m)
    ensures ((x & y) | (!x & z)) & m == if x & m != 0 then y & m else z & m
  {
  }

  /** If z then x else y. */
  lemma GIs(x: word, y: word, z: word, m: bv32)
    requires Single(m)
    ensures G(x, y, z) as bv32 & m == if z as bv32 & m != 0 then x as bv32 & m else y as bv32 & m
  {
    Casts((x as bv32 & z as bv32) | (y as bv32 & !(z as bv32)));
    ChosenLast(x as bv32, y as bv32, z as bv32, m);
  }

  lemma ChosenLast(x: bv32, y: bv32, z: bv32, m: bv32)
    requires Single(m)
    ensures ((x & z) | (y & !z)) & m == if z & m != 0 then x & m else y & m
  {
  }

  /** The parity of the three bits. */
  lemma HIs(x: word, y: word, z: word, m: bv32)
    requires Single(m)
    ensures H(x, y, z) as bv32 & m != 0 <==> ((x as bv32 & m != 0) <==> ((y as bv32 & m != 0) <==> (z as bv32 & m != 0)))
  {
    Casts(x as bv32 ^ y as bv32 ^ z as bv32);
    Parity(x as bv32, y as bv32, z as bv32, m);
  }

  lemma Parity(x: bv32, y: bv32, z: bv32, m: bv32)
    requires Single(m)
    ensures (x ^ y ^ z) & m != 0 <==> ((x & m != 0) <==> ((y & m != 0) <==> (z & m != 0)))
  {
  }

  /** y, but the other way where x or not z. */
  lemma IIs(x: word, y: word, z: word, m: bv32)
    requires Single(m)
    ensures I(x, y, z) as bv32 & m != 0 <==> ((y as bv32 & m != 0) <==> !(x as bv32 & m != 0 || z as bv32 & m == 0))
  {
    Casts(y as bv32 ^ (x as bv32 | !(z as bv32)));
    Flipped(x as bv32, y as bv32, z as bv32, m);
  }

  lemma Flipped(x: bv32, y: bv32, z: bv32, m: bv32)
    requires Single(m)
    ensures (y ^ (x | !z)) & m != 0 <==> ((y & m != 0) <==> !(x & m != 0 || z & m == 0))
  {
  }

  /** a = b + ((a + mix + X[k] + T[i]) <<< s), in words. */
  lemma OpIs(mix: word, a: word, b: word, x: word, t: word, s: nat)
    requires s <= 32
    ensures Md5.Op(mix, a, b, x, t, s) == (b + Rotated((a + mix + x + t) % 0x1_0000_0000, s)) % 0x1_0000_0000
  {
    hide Rotated;
    assert ((a + mix) % 0x1_0000_0000 + x) % 0x1_0000_0000 == (a + mix + x) % 0x1_0000_0000;
    assert Plus(Plus(Plus(a, mix), x), t) == (a + mix + x + t) % 0x1_0000_0000;
  }

  /** The registers are increased by what they held before the block. */
  lemma CompressedIs(x: seq<word>, r: Regs)
    requires |x| == 16
    ensures var n, c := Steps(0, 64, x, r), Compressed(x, r);
      && c.a == (r.a + n.a) % 0x1_0000_0000 && c.b == (r.b + n.b) % 0x1_0000_0000
      && c.c == (r.c + n.c) % 0x1_0000_0000 && c.d == (r.d + n.d) % 0x1_0000_0000
  {
    hide Steps;
  }

  // ---------- tables ----------

  /** The words and the shifts of the steps, as the rounds of section 3.4 list them. */
  const WORDS_ONE: seq<nat> := [0, 1, 2, 3, 4, 5, 6, 7, 8, 9, 10, 11, 12, 13, 14, 15]
  const WORDS_TWO: seq<nat> := [1, 6, 11, 0, 5, 10, 15, 4, 9, 14, 3, 8, 13, 2, 7, 12]
  const WORDS_THREE: seq<nat> := [5, 8, 11, 14, 1, 4, 7, 10, 13, 0, 3, 6, 9, 12, 15, 2]
  const WORDS_FOUR: seq<nat> := [0, 7, 14, 5, 12, 3, 10, 1, 8, 15, 6, 13, 4, 11, 2, 9]

  lemma StepTables(i: nat)
    requires i < 16
    ensures Index(i) == WORDS_ONE[i] && Index(16 + i) == WORDS_TWO[i]
    ensures Index(32 + i) == WORDS_THREE[i] && Index(48 + i) == WORDS_FOUR[i]
    ensures Shift(i) == [7, 12, 17, 22][i % 4] && Shift(16 + i) == [5, 9, 14, 20][i % 4]
    ensures Shift(32 + i) == [4, 11, 16, 23][i % 4] && Shift(48 + i) == [6, 10, 15, 21][i % 4]
  {
    hide Index, Shift;
    TableOne(i);
    TableTwo(i);
    TableThree(i);
    TableFour(i);
  }

  lemma TableOne(i: nat)
    requires i < 16
    ensures Index(i) == WORDS_ONE[i] && Shift(i) == [7, 12, 17, 22][i % 4]
  {
    assert Index(0) == 0 && Index(1) == 1 && Index(2) == 2 && Index(3) == 3;
    assert Index(4) == 4 && Index(5) == 5 && Index(6) == 6 && Index(7) == 7;
    assert Index(8) == 8 && Index(9) == 9 && Index(10) == 10 && Index(11) == 11;
    assert Index(12) == 12 && Index(13) == 13 && Index(14) == 14 && Index(15) == 15;
    assert i == 0 || i == 1 || i == 2 || i == 3 || i == 4 || i == 5 || i == 6 || i == 7 || i == 8 || i == 9 || i == 10 || i == 11 || i == 12 || i == 13 || i == 14 || i == 15;
  }

  lemma TableTwo(i: nat)
    requires i < 16
    ensures Index(16 + i) == WORDS_TWO[i] && Shift(16 + i) == [5, 9, 14, 20][i % 4]
  {
    assert Index(16) == 1 && Index(17) == 6 && Index(18) == 11 && Index(19) == 0;
    assert Index(20) == 5 && Index(21) == 10 && Index(22) == 15 && Index(23) == 4;
    assert Index(24) == 9 && Index(25) == 14 && Index(26) == 3 && Index(27) == 8;
    assert Index(28) == 13 && Index(29) == 2 && Index(30) == 7 && Index(31) == 12;
    assert i == 0 || i == 1 || i == 2 || i == 3 || i == 4 || i == 5 || i == 6 || i == 7 || i == 8 || i == 9 || i == 10 || i == 11 || i == 12 || i == 13 || i == 14 || i == 15;
  }

  lemma TableThree(i: nat)
    requires i < 16
    ensures Index(32 + i) == WORDS_THREE[i] && Shift(32 + i) == [4, 11, 16, 23][i % 4]
  {
    assert Index(32) == 5 && Index(33) == 8 && Index(34) == 11 && Index(35) == 14;
    assert Index(36) == 1 && Index(37) == 4 && Index(38) == 7 && Index(39) == 10;
    assert Index(40) == 13 && Index(41) == 0 && Index(42) == 3 && Index(43) == 6;
    assert Index(44) == 9 && Index(45) == 12 && Index(46) == 15 && Index(47) == 2;
    assert i == 0 || i == 1 || i == 2 || i == 3 || i == 4 || i == 5 || i == 6 || i == 7 || i == 8 || i == 9 || i == 10 || i == 11 || i == 12 || i == 13 || i == 14 || i == 15;
  }

  lemma TableFour(i: nat)
    requires i < 16
    ensures Index(48 + i) == WORDS_FOUR[i] && Shift(48 + i) == [6, 10, 15, 21][i % 4]
  {
    assert Index(48) == 0 && Index(49) == 7 && Index(50) == 14 && Index(51) == 5;
    assert Index(52) == 12 && Index(53) == 3 && Index(54) == 10 && Index(55) == 1;
    assert Index(56) == 8 && Index(57) == 15 && Index(58) == 6 && Index(59) == 13;
    assert Index(60) == 4 && Index(61) == 11 && Index(62) == 2 && Index(63) == 9;
    assert i == 0 || i == 1 || i == 2 || i == 3 || i == 4 || i == 5 || i == 6 || i == 7 || i == 8 || i == 9 || i == 10 || i == 11 || i == 12 || i == 13 || i == 14 || i == 15;
  }

  /** Section 3.3: the registers start from these bytes, low-order bytes first. */
  lemma InitialBytes()
    ensures AllBytes(Listed(INITIAL)) == [0x01, 0x23, 0x45, 0x67, 0x89, 0xab, 0xcd, 0xef, 0xfe, 0xdc, 0xba, 0x98, 0x76, 0x54, 0x32, 0x10]
  {
    hide Bytes, AllBytes;
    var a, b, c, d := 0x67452301, 0xEFCDAB89, 0x98BADCFE, 0x10325476;
    Appended([a, b, c], d);
    Appended([a, b], c);
    Appended([a], b);
    Appended([], a);
    assert [a, b, c] + [d] == Listed(INITIAL) && [a, b] + [c] == [a, b, c] && [a] + [b] == [a, b] && [] + [a] == [a];
    NoneListed();
    FourOf(a, 0x01, 0x23, 0x45, 0x67);
    FourOf(b, 0x89, 0xab, 0xcd, 0xef);
    FourOf(c, 0xfe, 0xdc, 0xba, 0x98);
    FourOf(d, 0x76, 0x54, 0x32, 0x10);
  }

  lemma NoneListed()
    ensures AllBytes([]) == []
  {
  }

  lemma FourOf(w: word, a: byte, b: byte, c: byte, d: byte)
    requires w == a + b * 0x100 + c * 0x10000 + d * 0x1000000
    ensures Bytes(false, Width.Four, w) == [a, b, c, d]
  {
    Digits(d, c, b, a);
  }

  lemma Appended(q: seq<word>, w: word)
    ensures AllBytes(q + [w]) == AllBytes(q) + Bytes(false, Width.Four, w)
  {
    assert (q + [w])[..|q|] == q;
  }

  // ---------- padding ----------

  /** The bytes of a number, low-order byte first. */
  ghost function LowOrder(v: nat, n: nat): (s: seq<byte>)
    ensures |s| == n
  {
    if n == 0 then [] else [v % 0x100] + LowOrder(v / 0x100, n - 1)
  }

  /** Sections 3.1 and 3.2: a one bit and zeros up to 56 bytes modulo 64, and the length in bits as eight bytes. */
  ghost predicate IsPadded(m: seq<byte>, s: seq<byte>) {
    exists k: nat :: PaddedBy(m, k, s)
  }

  ghost predicate PaddedBy(m: seq<byte>, k: nat, s: seq<byte>) {
    k < 64 && (|m| + 1 + k) % 64 == 56 && s == m + [0x80] + Zeros(k) + LowOrder(|m| * 8, 8)
  }

  /** The bytes fed in are the padded message if and only if the length modulo 2^61 is below 2^32. */
  lemma PaddedAsRfc(m: seq<byte>)
    ensures IsPadded(m, AllBytes(Padded(m))) <==> |m| % 0x2000_0000_0000_0000 < 0x1_0000_0000
  {
    hide AllBytes, Padded, PaddedBy;
    var n, s, k := |m|, AllBytes(Padded(m)), (55 - |m|) % 64;
    HighBits(n);
    if LengthHigh(n) == n * 8 / 0x1_0000_0000 % 0x1_0000_0000 {
      PaddedRight(m);
    }
    if IsPadded(m, s) {
      var j: nat :| PaddedBy(m, j, s);
      PaddedOnly(m, j);
    }
  }

  lemma PaddedRight(m: seq<byte>)
    requires LengthHigh(|m|) == |m| * 8 / 0x1_0000_0000 % 0x1_0000_0000
    ensures PaddedBy(m, (55 - |m|) % 64, AllBytes(Padded(m)))
  {
    hide AllBytes, Padded, LowOrder, Bytes;
    PaddedParts(m);
    LengthBytes(|m| * 8);
    FillLength(|m|);
  }

  lemma PaddedOnly(m: seq<byte>, j: nat)
    requires PaddedBy(m, j, AllBytes(Padded(m)))
    ensures LengthHigh(|m|) == |m| * 8 / 0x1_0000_0000 % 0x1_0000_0000
  {
    hide AllBytes, Padded, LowOrder, Bytes;
    var n, s := |m|, AllBytes(Padded(m));
    var high := n * 8 / 0x1_0000_0000 % 0x1_0000_0000;
    PaddedParts(m);
    LengthBytes(n * 8);
    assert s[|s| - 4..] == LowOrder(n * 8, 8)[4..] == Bytes(false, Width.Four, high);
    assert s[|s| - 4..] == Bytes(false, Width.Four, LengthHigh(n));
    ValueRoundTrip(false, Width.Four, high);
    ValueRoundTrip(false, Width.Four, LengthHigh(n));
  }

  lemma PaddedParts(m: seq<byte>)
    ensures AllBytes(Padded(m)) ==
      m + [0x80] + Zeros((55 - |m|) % 64) + (Bytes(false, Width.Four, LengthLow(|m|)) + Bytes(false, Width.Four, LengthHigh(|m|)))
    ensures |Bytes(false, Width.Four, LengthLow(|m|))| == 4 && |Bytes(false, Width.Four, LengthHigh(|m|))| == 4
  {
    hide Bytes, Words, Filled, AllBytes;
    WordsBytes(Filled(m));
    var w, l, h := Words(Filled(m)), LengthLow(|m|), LengthHigh(|m|);
    ValueRoundTrip(false, Width.Four, l);
    ValueRoundTrip(false, Width.Four, h);
    Appended(w, l);
    Appended(w + [l], h);
    assert w + [l] + [h] == w + [l, h];
    FilledIs(m);
  }

  lemma FilledIs(m: seq<byte>)
    ensures Filled(m) == m + [0x80] + Zeros((55 - |m|) % 64)
  {
  }

  /** The length as two words. */
  lemma LengthBytes(v: nat)
    ensures var low, high := v % 0x1_0000_0000, v / 0x1_0000_0000 % 0x1_0000_0000;
      LowOrder(v, 8) == Bytes(false, Width.Four, low) + Bytes(false, Width.Four, high)
      && |Bytes(false, Width.Four, low)| == 4 && |Bytes(false, Width.Four, high)| == 4
  {
    hide Bytes, LowOrder;
    FourBehind(v, 4);
    LowDigits(v);
    LowDigits(v / 0x1_0000_0000);
  }

  lemma FourBehind(v: nat, n: nat)
    ensures LowOrder(v, 4 + n) == LowOrder(v, 4) + LowOrder(v / 0x1_0000_0000, n)
    ensures LowOrder(v, 4) == [v % 0x100, v / 0x100 % 0x100, v / 0x100 / 0x100 % 0x100, v / 0x100 / 0x100 / 0x100 % 0x100]
  {
    var a := v / 0x100;
    var b := a / 0x100;
    var c := b / 0x100;
    assert c / 0x100 == v / 0x1_0000_0000;
    assert LowOrder(v, 4 + n) == [v % 0x100] + LowOrder(a, 3 + n);
    assert LowOrder(a, 3 + n) == [a % 0x100] + LowOrder(b, 2 + n);
    assert LowOrder(b, 2 + n) == [b % 0x100] + LowOrder(c, 1 + n);
    assert LowOrder(c, 1 + n) == [c % 0x100] + LowOrder(c / 0x100, n);
    assert LowOrder(v, 4) == [v % 0x100] + LowOrder(a, 3);
    assert LowOrder(a, 3) == [a % 0x100] + LowOrder(b, 2);
    assert LowOrder(b, 2) == [b % 0x100] + LowOrder(c, 1);
    assert LowOrder(c, 1) == [c % 0x100] + LowOrder(c / 0x100, 0);
  }

  lemma LowDigits(v: nat)
    ensures Bytes(false, Width.Four, v % 0x1_0000_0000) == LowOrder(v, 4)
  {
    hide Bytes, ValueOf, LowOrder;
    FourBehind(v, 0);
    LowFirst(v);
    ValueRoundTrip(false, Width.Four, v);
    BytesRoundTrip(false, Width.Four, Bytes(false, Width.Four, v));
  }
}
