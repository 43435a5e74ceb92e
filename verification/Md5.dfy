/** The digest of lmd5.c: the loop that pads a message, and the unrolled rounds. */
module Md5 {
  import opened Buffers

  type word = n: int | 0 <= n < 0x1_0000_0000

  // ---------- words ----------

  function Plus(x: word, y: word): word { (x + y) % 0x1_0000_0000 }

  function Rotated(x: word, s: nat): word
    requires s <= 32
  {
    ((x as bv32 << s) | (x as bv32 >> (32 - s))) as int
  }

  /** The auxiliary functions of section 3.4 of RFC 1321. */
  function F(x: word, y: word, z: word): word {
    ((x as bv32 & y as bv32) | (!(x as bv32) & z as bv32)) as int
  }

  function G(x: word, y: word, z: word): word {
    ((x as bv32 & z as bv32) | (y as bv32 & !(z as bv32))) as int
  }

  function H(x: word, y: word, z: word): word { (x as bv32 ^ y as bv32 ^ z as bv32) as int }

  function I(x: word, y: word, z: word): word { (y as bv32 ^ (x as bv32 | !(z as bv32))) as int }

  const SINES: seq<word> := [
    0xd76aa478, 0xe8c7b756, 0x242070db, 0xc1bdceee, 0xf57c0faf, 0x4787c62a, 0xa8304613, 0xfd469501,
    0x698098d8, 0x8b44f7af, 0xffff5bb1, 0x895cd7be, 0x6b901122, 0xfd987193, 0xa679438e, 0x49b40821,
    0xf61e2562, 0xc040b340, 0x265e5a51, 0xe9b6c7aa, 0xd62f105d, 0x02441453, 0xd8a1e681, 0xe7d3fbc8,
    0x21e1cde6, 0xc33707d6, 0xf4d50d87, 0x455a14ed, 0xa9e3e905, 0xfcefa3f8, 0x676f02d9, 0x8d2a4c8a,
    0xfffa3942, 0x8771f681, 0x6d9d6122, 0xfde5380c, 0xa4beea44, 0x4bdecfa9, 0xf6bb4b60, 0xbebfbc70,
    0x289b7ec6, 0xeaa127fa, 0xd4ef3085, 0x04881d05, 0xd9d4d039, 0xe6db99e5, 0x1fa27cf8, 0xc4ac5665,
    0xf4292244, 0x432aff97, 0xab9423a7, 0xfc93a039, 0x655b59c3, 0x8f0ccc92, 0xffeff47d, 0x85845dd1,
    0x6fa87e4f, 0xfe2ce6e0, 0xa3014314, 0x4e0811a1, 0xf7537e82, 0xbd3af235, 0x2ad7d2bb, 0xeb86d391
  ]

  function T(t: nat): word { if t < |SINES| then SINES[t] else 0 }

  // ---------- the steps of section 3.4 ----------

  datatype Regs = Regs(a: word, b: word, c: word, d: word)

  ghost function Mix(t: nat, x: word, y: word, z: word): word {
    if t < 16 then F(x, y, z) else if t < 32 then G(x, y, z) else if t < 48 then H(x, y, z) else I(x, y, z)
  }

  /** Which word of the block a step takes. */
  ghost function Index(t: nat): (k: nat)
    ensures k < 16
  {
    if t < 16 then t else if t < 32 then (5 * t + 1) % 16 else if t < 48 then (3 * t + 5) % 16 else 7 * t % 16
  }

  ghost function Shift(t: nat): (s: nat)
    ensures s <= 32
  {
    var k := t % 4;
    if t < 16 then if k == 0 then 7 else if k == 1 then 12 else if k == 2 then 17 else 22
    else if t < 32 then if k == 0 then 5 else if k == 1 then 9 else if k == 2 then 14 else 20
    else if t < 48 then if k == 0 then 4 else if k == 1 then 11 else if k == 2 then 16 else 23
    else if k == 0 then 6 else if k == 1 then 10 else if k == 2 then 15 else 21
  }

  /** a = b + ((a + mix + x + t) <<< s). */
  function Op(mix: word, a: word, b: word, x: word, t: word, s: nat): word
    requires s <= 32
  {
    Plus(Rotated(Plus(Plus(Plus(a, mix), x), t), s), b)
  }

  /** One operation, after which the registers take each other's roles. */
  ghost function Step(t: nat, x: seq<word>, r: Regs): Regs
    requires |x| == 16
  {
    Regs(r.d, Op(Mix(t, r.b, r.c, r.d), r.a, r.b, x[Index(t)], T(t), Shift(t)), r.b, r.c)
  }

  /** The steps from t to n. */
  ghost function Steps(t: nat, n: nat, x: seq<word>, r: Regs): Regs
    requires t <= n && |x| == 16
  {
    if n == t then r else Step(n - 1, x, Steps(t, n - 1, x, r))
  }

  /** A block is worked into the registers. */
  ghost function Compressed(x: seq<word>, r: Regs): Regs
    requires |x| == 16
  {
    var n := Steps(0, 64, x, r);
    Regs(Plus(n.a, r.a), Plus(n.b, r.b), Plus(n.c, r.c), Plus(n.d, r.d))
  }

  // ---------- digest ----------

  ghost function RegsOf(d: seq<word>): Regs
    requires |d| == 4
  {
    Regs(d[0], d[1], d[2], d[3])
  }

  /** Four steps bring every register back to its role. */
  ghost function Four(t: nat, x: seq<word>, r: Regs): Regs
    requires |x| == 16
  {
    Step(t + 3, x, Step(t + 2, x, Step(t + 1, x, Step(t, x, r))))
  }

  lemma FourOne(j: nat, x: seq<word>, r: Regs)
    requires j < 16 && j % 4 == 0 && |x| == 16
    ensures Four(j, x, r) ==
      var a := Op(F(r.b, r.c, r.d), r.a, r.b, x[j], T(j), 7);
      var d := Op(F(a, r.b, r.c), r.d, a, x[(j + 1)], T(j + 1), 12);
      var c := Op(F(d, a, r.b), r.c, d, x[(j + 2)], T(j + 2), 17);
      var b := Op(F(c, d, a), r.b, c, x[(j + 3)], T(j + 3), 22);
      Regs(a, b, c, d)
  {
    hide F, G, H, I, Op, T;
    assert j == 0 || j == 4 || j == 8 || j == 12;
  }

  method RoundOne(m: array<word>, d: array<word>)
    requires m.Length == 16 && d.Length == 4 && m != d
    modifies d
    ensures RegsOf(d[..]) == Steps(0, 16, m[..], RegsOf(old(d[..])))
  {
    hide F, G, H, I, Op, T, Four, Steps;
    ghost var x, r := m[..], RegsOf(d[..]);
    NoSteps(0, x, r);
    var j := 0;
    while j < 4 * 4
      invariant 0 <= j <= 16 && j % 4 == 0 && RegsOf(d[..]) == Steps(0, j, x, r)
    {
      FourOne(j, x, RegsOf(d[..]));
      FourOnward(0, j, x, r);
      d[0] := Op(F(d[1], d[2], d[3]), d[0], d[1], m[j], T(j), 7);
      d[3] := Op(F(d[0], d[1], d[2]), d[3], d[0], m[(j + 1)], T(j + 1), 12);
      d[2] := Op(F(d[3], d[0], d[1]), d[2], d[3], m[(j + 2)], T(j + 2), 17);
      d[1] := Op(F(d[2], d[3], d[0]), d[1], d[2], m[(j + 3)], T(j + 3), 22);
      j := j + 4;
    }
  }

  lemma FourTwo(j: nat, x: seq<word>, r: Regs)
    requires j < 16 && j % 4 == 0 && |x| == 16
    ensures Four(j + 16, x, r) ==
      var a := Op(G(r.b, r.c, r.d), r.a, r.b, x[(5 * j + 1) % 16], T(j + 16), 5);
      var d := Op(G(a, r.b, r.c), r.d, a, x[(5 * (j + 1) + 1) % 16], T(j + 17), 9);
      var c := Op(G(d, a, r.b), r.c, d, x[(5 * (j + 2) + 1) % 16], T(j + 18), 14);
      var b := Op(G(c, d, a), r.b, c, x[(5 * (j + 3) + 1) % 16], T(j + 19), 20);
      Regs(a, b, c, d)
  {
    hide F, G, H, I, Op, T;
    assert j == 0 || j == 4 || j == 8 || j == 12;
  }

  method RoundTwo(m: array<word>, d: array<word>)
    requires m.Length == 16 && d.Length == 4 && m != d
    modifies d
    ensures RegsOf(d[..]) == Steps(16, 32, m[..], RegsOf(old(d[..])))
  {
    hide F, G, H, I, Op, T, Four, Steps;
    ghost var x, r := m[..], RegsOf(d[..]);
    NoSteps(16, x, r);
    var j := 0;
    while j < 4 * 4
      invariant 0 <= j <= 16 && j % 4 == 0 && RegsOf(d[..]) == Steps(16, j + 16, x, r)
    {
      FourTwo(j, x, RegsOf(d[..]));
      FourOnward(16, j + 16, x, r);
      d[0] := Op(G(d[1], d[2], d[3]), d[0], d[1], m[(5 * j + 1) % 16], T(j + 16), 5);
      d[3] := Op(G(d[0], d[1], d[2]), d[3], d[0], m[(5 * (j + 1) + 1) % 16], T(j + 17), 9);
      d[2] := Op(G(d[3], d[0], d[1]), d[2], d[3], m[(5 * (j + 2) + 1) % 16], T(j + 18), 14);
      d[1] := Op(G(d[2], d[3], d[0]), d[1], d[2], m[(5 * (j + 3) + 1) % 16], T(j + 19), 20);
      j := j + 4;
    }
  }

  lemma FourThree(j: nat, x: seq<word>, r: Regs)
    requires j < 16 && j % 4 == 0 && |x| == 16
    ensures Four(j + 32, x, r) ==
      var a := Op(H(r.b, r.c, r.d), r.a, r.b, x[(3 * j + 5) % 16], T(j + 32), 4);
      var d := Op(H(a, r.b, r.c), r.d, a, x[(3 * (j + 1) + 5) % 16], T(j + 33), 11);
      var c := Op(H(d, a, r.b), r.c, d, x[(3 * (j + 2) + 5) % 16], T(j + 34), 16);
      var b := Op(H(c, d, a), r.b, c, x[(3 * (j + 3) + 5) % 16], T(j + 35), 23);
      Regs(a, b, c, d)
  {
    hide F, G, H, I, Op, T;
    assert j == 0 || j == 4 || j == 8 || j == 12;
  }

  method RoundThree(m: array<word>, d: array<word>)
    requires m.Length == 16 && d.Length == 4 && m != d
    modifies d
    ensures RegsOf(d[..]) == Steps(32, 48, m[..], RegsOf(old(d[..])))
  {
    hide F, G, H, I, Op, T, Four, Steps;
    ghost var x, r := m[..], RegsOf(d[..]);
    NoSteps(32, x, r);
    var j := 0;
    while j < 4 * 4
      invariant 0 <= j <= 16 && j % 4 == 0 && RegsOf(d[..]) == Steps(32, j + 32, x, r)
    {
      FourThree(j, x, RegsOf(d[..]));
      FourOnward(32, j + 32, x, r);
      d[0] := Op(H(d[1], d[2], d[3]), d[0], d[1], m[(3 * j + 5) % 16], T(j + 32), 4);
      d[3] := Op(H(d[0], d[1], d[2]), d[3], d[0], m[(3 * (j + 1) + 5) % 16], T(j + 33), 11);
      d[2] := Op(H(d[3], d[0], d[1]), d[2], d[3], m[(3 * (j + 2) + 5) % 16], T(j + 34), 16);
      d[1] := Op(H(d[2], d[3], d[0]), d[1], d[2], m[(3 * (j + 3) + 5) % 16], T(j + 35), 23);
      j := j + 4;
    }
  }

  lemma FourFour(j: nat, x: seq<word>, r: Regs)
    requires j < 16 && j % 4 == 0 && |x| == 16
    ensures Four(j + 48, x, r) ==
      var a := Op(I(r.b, r.c, r.d), r.a, r.b, x[7 * j % 16], T(j + 48), 6);
      var d := Op(I(a, r.b, r.c), r.d, a, x[7 * (j + 1) % 16], T(j + 49), 10);
      var c := Op(I(d, a, r.b), r.c, d, x[7 * (j + 2) % 16], T(j + 50), 15);
      var b := Op(I(c, d, a), r.b, c, x[7 * (j + 3) % 16], T(j + 51), 21);
      Regs(a, b, c, d)
  {
    hide F, G, H, I, Op, T;
    assert j == 0 || j == 4 || j == 8 || j == 12;
  }

  method RoundFour(m: array<word>, d: array<word>)
    requires m.Length == 16 && d.Length == 4 && m != d
    modifies d
    ensures RegsOf(d[..]) == Steps(48, 64, m[..], RegsOf(old(d[..])))
  {
    hide F, G, H, I, Op, T, Four, Steps;
    ghost var x, r := m[..], RegsOf(d[..]);
    NoSteps(48, x, r);
    var j := 0;
    while j < 4 * 4
      invariant 0 <= j <= 16 && j % 4 == 0 && RegsOf(d[..]) == Steps(48, j + 48, x, r)
    {
      FourFour(j, x, RegsOf(d[..]));
      FourOnward(48, j + 48, x, r);
      d[0] := Op(I(d[1], d[2], d[3]), d[0], d[1], m[7 * j % 16], T(j + 48), 6);
      d[3] := Op(I(d[0], d[1], d[2]), d[3], d[0], m[7 * (j + 1) % 16], T(j + 49), 10);
      d[2] := Op(I(d[3], d[0], d[1]), d[2], d[3], m[7 * (j + 2) % 16], T(j + 50), 15);
      d[1] := Op(I(d[2], d[3], d[0]), d[1], d[2], m[7 * (j + 3) % 16], T(j + 51), 21);
      j := j + 4;
    }
  }

  /** digest: four operations at a time, each on the registers where they are. */
  method Digest(m: array<word>, d: array<word>)
    requires m.Length == 16 && d.Length == 4 && m != d
    modifies d
    ensures RegsOf(d[..]) == Steps(0, 64, m[..], RegsOf(old(d[..])))
  {
    hide Step, T;
    ghost var x, r := m[..], RegsOf(d[..]);
    RoundOne(m, d);
    RoundTwo(m, d);
    RoundThree(m, d);
    RoundFour(m, d);
    StepsOnward(0, 16, 32, x, r);
    StepsOnward(0, 32, 48, x, r);
    StepsOnward(0, 48, 64, x, r);
  }

  lemma NoSteps(t: nat, x: seq<word>, r: Regs)
    requires |x| == 16
    ensures Steps(t, t, x, r) == r
  {
  }

  lemma {:induction false} StepsOnward(t: nat, k: nat, n: nat, x: seq<word>, r: Regs)
    requires t <= k <= n && |x| == 16
    ensures Steps(k, n, x, Steps(t, k, x, r)) == Steps(t, n, x, r)
  {
    hide Step, T;
    if k < n {
      StepsOnward(t, k, n - 1, x, r);
    }
  }

  lemma FourOnward(t: nat, n: nat, x: seq<word>, r: Regs)
    requires t <= n && |x| == 16
    ensures Four(n, x, Steps(t, n, x, r)) == Steps(t, n + 4, x, r)
  {
    hide Step, T;
    assert Steps(t, n + 2, x, r) == Step(n + 1, x, Step(n, x, Steps(t, n, x, r)));
  }

  // ---------- padding ----------

  /** A word has its low-order byte first. */
  function WordAt(s: seq<byte>, j: nat): word
    requires j + 4 <= |s|
  {
    ((s[j + 3] as int * 0x100 + s[j + 2]) * 0x100 + s[j + 1]) * 0x100 + s[j]
  }

  ghost function Words(s: seq<byte>): (w: seq<word>)
    requires |s| % 4 == 0
    ensures |w| == |s| / 4
  {
    seq(|s| / 4, k requires 0 <= k < |s| / 4 => WordAt(s, 4 * k))
  }

  lemma WordsJoin(a: seq<byte>, b: seq<byte>)
    requires |a| % 4 == 0 && |b| % 4 == 0
    ensures Words(a + b) == Words(a) + Words(b)
  {
  }

  function Zeros(n: nat): (s: seq<byte>)
    ensures |s| == n
  {
    seq(n, _ => 0)
  }

  /** The length in bits, low-order word first, of which the code keeps three bits of the high one. */
  function LengthLow(len: nat): word { len * 8 % 0x1_0000_0000 }

  function LengthHigh(len: nat): word { len / 0x2000_0000 % 8 }

  lemma FillLength(n: nat)
    ensures (n + 1 + (55 - n) % 64) % 64 == 56 && (n + 1 + (55 - n) % 64) % 4 == 0
  {
    var k := (55 - n) / 64;
    var x := n + 1 + (55 - n) % 64;
    assert x == 64 * -k + 56;
    SixtyFours(-k, x);
  }

  lemma SixtyFours(k: int, x: int)
    requires x == 64 * k + 56
    ensures x % 64 == 56 && x % 4 == 0
  {
    assert x == 4 * (16 * k + 14);
  }

  ghost function Filled(m: seq<byte>): (s: seq<byte>)
    ensures |s| % 64 == 56 && |s| % 4 == 0
  {
    FillLength(|m|);
    m + [0x80] + Zeros((55 - |m|) % 64)
  }

  ghost function Padded(m: seq<byte>): seq<word> {
    Words(Filled(m)) + [LengthLow(|m|), LengthHigh(|m|)]
  }

  lemma HighBits(n: nat)
    ensures n / 0x2000_0000 % 8 == n * 8 / 0x1_0000_0000 % 0x1_0000_0000 <==> n % 0x2000_0000_0000_0000 < 0x1_0000_0000
  {
    var q, r := n / 0x2000_0000, n % 0x2000_0000;
    var h, l := q / 0x1_0000_0000, q % 0x1_0000_0000;
    assert n * 8 / 0x1_0000_0000 == q;
    Remains(n, h, l * 0x2000_0000 + r);
    assert q % 8 == l % 8;
  }

  lemma Remains(n: nat, h: nat, k: nat)
    requires n == h * 0x2000_0000_0000_0000 + k && k < 0x2000_0000_0000_0000
    ensures n % 0x2000_0000_0000_0000 == k
  {
  }

  /** The blocks of 16 words are worked in one after the other. */
  ghost function Hash(ws: seq<word>, r: Regs): Regs {
    if |ws| < 16 then r else Hash(ws[16..], Compressed(ws[..16], r))
  }

  const INITIAL := Regs(0x67452301, 0xEFCDAB89, 0x98BADCFE, 0x10325476)

  /** What is still to be fed in: with the rest of the message and the bit behind it, with the bit already
    there, or nothing. */
  ghost function Tail(status: nat, rest: seq<byte>, len: nat): seq<word> {
    if status == 0 then Words(Filled(rest)) + [LengthLow(len), LengthHigh(len)]
    else if status == 1 then Words(Zeros(56)) + [LengthLow(len), LengthHigh(len)]
    else []
  }

  ghost function Block(pt: seq<byte>, status: nat): (s: seq<byte>)
    requires |pt| <= 64
    ensures |s| == 64
  {
    if |pt| == 64 then pt else pt + [if status == 0 then 0x80 else 0] + Zeros(63 - |pt|)
  }

  function Status(num: nat): nat { if num <= 64 - 9 then 2 else if num < 64 then 1 else 0 }

  lemma TailStep(status: nat, rest: seq<byte>, len: nat)
    requires status == 0 || (status == 1 && rest == [])
    ensures var num := if |rest| >= 64 then 64 else |rest|;
      var ws := Words(Block(rest[..num], status));
      Tail(status, rest, len) ==
        if Status(num) == 2 then ws[14 := LengthLow(len)][15 := LengthHigh(len)] else ws + Tail(Status(num), rest[num..], len)
  {
    hide Words;
    var num := if |rest| >= 64 then 64 else |rest|;
    var b := Block(rest[..num], status);
    if Status(num) == 0 {
      assert Filled(rest) == b + Filled(rest[num..]);
      WordsJoin(b, Filled(rest[num..]));
    } else if Status(num) == 1 {
      assert Filled(rest) == b + Zeros(56);
      WordsJoin(b, Zeros(56));
    } else {
      var head := if status == 0 then Filled(rest) else Zeros(56);
      assert b == head + Zeros(8);
      WordsJoin(head, Zeros(8));
    }
  }

  method BytesToWord32(x: array<word>, pt: seq<byte>)
    requires x.Length == 16 && |pt| == 64
    modifies x
    ensures x[..] == Words(pt)
  {
    for i := 0 to 16
      invariant forall k :: 0 <= k < i ==> x[k] == Words(pt)[k]
    {
      x[i] := WordAt(pt, i * 4);
    }
  }

  /** converte, for the `num` bytes at the start of `pt`. */
  method Converte(x: array<word>, pt: seq<byte>, num: nat, oldStatus: nat) returns (newStatus: nat)
    requires x.Length == 16 && num <= |pt| && num <= 64
    modifies x
    ensures newStatus == Status(num) && x[..] == Words(Block(pt[..num], oldStatus))
  {
    newStatus := 0;
    var block := pt[..num];
    if num < 64 {
      var buff := new byte[64](i requires 0 <= i < 64 => if i < num then block[i] else 0);
      if oldStatus == 0 {
        buff[num] := 0x80;
      }
      newStatus := 1;
      block := buff[..];
    }
    assert block == Block(pt[..num], oldStatus);
    BytesToWord32(x, block);
    if num <= 64 - 9 {
      newStatus := 2;
    }
  }

  method PutLength(x: array<word>, len: nat)
    requires x.Length == 16
    modifies x
    ensures x[..] == old(x[..])[14 := LengthLow(len)][15 := LengthHigh(len)]
  {
    x[14], x[15] := LengthLow(len), LengthHigh(len);
  }

  /** word32tobytes. */
  method Word32ToBytes(input: array<word>) returns (output: seq<byte>)
    requires input.Length == 4
    ensures output == AllBytes(input[..])
  {
    hide Bytes;
    output := [];
    assert input[..0] == [];
    for k := 0 to 4
      invariant output == AllBytes(input[..k])
    {
      var v: int := input[k];
      output := output + [v % 0x100, v / 0x100 % 0x100, v / 0x100 / 0x100 % 0x100, v / 0x100 / 0x100 / 0x100 % 0x100];
      assert input[..k + 1][..k] == input[..k];
      LowFirst(v);
    }
    assert input[..4] == input[..];
  }

  lemma LowFirst(v: int)
    ensures Bytes(false, Width.Four, v) == [v % 0x100, v / 0x100 % 0x100, v / 0x100 / 0x100 % 0x100, v / 0x100 / 0x100 / 0x100 % 0x100]
  {
    Shifted(v);
  }

  lemma Shifted(v: int)
    ensures v / 0x10000 == v / 0x100 / 0x100 && v / 0x1000000 == v / 0x100 / 0x100 / 0x100
  {
  }

  ghost function AllBytes(ws: seq<word>): seq<byte> {
    if ws == [] then [] else AllBytes(ws[..|ws| - 1]) + Bytes(false, Width.Four, ws[|ws| - 1])
  }

  ghost function Listed(r: Regs): seq<word> { [r.a, r.b, r.c, r.d] }

  /** A block goes in, and what the registers held before is added. */
  method WorkIn(wbuff: array<word>, d: array<word>)
    requires wbuff.Length == 16 && d.Length == 4 && wbuff != d
    modifies d
    ensures RegsOf(d[..]) == Compressed(wbuff[..], RegsOf(old(d[..])))
  {
    hide Steps, Plus;
    var a, b, c, e := d[0], d[1], d[2], d[3];
    Digest(wbuff, d);
    ghost var n := RegsOf(d[..]);
    d[0], d[1], d[2], d[3] := Plus(d[0], a), Plus(d[1], b), Plus(d[2], c), Plus(d[3], e);
  }

  /** md5. */
  method Md5(message: seq<byte>) returns (output: seq<byte>)
    ensures output == AllBytes(Listed(Hash(Padded(message), INITIAL)))
  {
    hide Compressed, Hash, AllBytes, Tail, Words;
    var d := new word[4];
    d[0], d[1], d[2], d[3] := 0x67452301, 0xEFCDAB89, 0x98BADCFE, 0x10325476;
    var wbuff := new word[16];
    var status, i := 0, 0;
    assert message[0..] == message;
    TailAtStart(message);
    while status != 2
      invariant status <= 2 && i <= |message| && (status == 1 ==> i == |message|)
      invariant Hash(Tail(status, message[i..], |message|), RegsOf(d[..])) == Hash(Padded(message), INITIAL)
      decreases |message| - i, 2 - status
    {
      ghost var rest := message[i..];
      var numbytes := if |message| - i >= 64 then 64 else |message| - i;
      TailStep(status, rest, |message|);
      status := Converte(wbuff, message[i..], numbytes, status);
      if status == 2 {
        PutLength(wbuff, |message|);
      }
      HashStep(wbuff[..], Tail(status, rest[numbytes..], |message|), RegsOf(d[..]));
      TailAtEnd(rest[numbytes..], |message|);
      WorkIn(wbuff, d);
      i := i + numbytes;
      assert message[i..] == rest[numbytes..];
    }
    TailAtEnd(message[i..], |message|);
    HashNone(RegsOf(d[..]));
    assert d[..] == Listed(RegsOf(d[..]));
    output := Word32ToBytes(d);
  }

  lemma TailAtStart(message: seq<byte>)
    ensures Tail(0, message, |message|) == Padded(message)
  {
  }

  lemma TailAtEnd(rest: seq<byte>, len: nat)
    ensures Tail(2, rest, len) == []
  {
  }

  lemma HashStep(block: seq<word>, ws: seq<word>, r: Regs)
    requires |block| == 16
    ensures Hash(block + ws, r) == Hash(ws, Compressed(block, r))
    ensures block + [] == block
  {
    assert (block + ws)[..16] == block && (block + ws)[16..] == ws;
  }

  lemma HashNone(r: Regs)
    ensures Hash([], r) == r
  {
  }
}
