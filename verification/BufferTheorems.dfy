/** What the buffer is for: values and frames come back as they went in, and lines do not depend on how
  their bytes arrived. */
module BufferTheorems {
  import opened Tasks
  import opened Buffers

  // ---------- typed values ----------

  /** A value comes back as it was, but for the bits that its width has no room for, in either byte order. */
  lemma ValueRoundTrip(be: bool, w: Width, v: int)
    ensures |Bytes(be, w, v)| == Size(w) && ValueOf(be, Bytes(be, w, v)) == v % Range(w)
  {
    match w
    case One => ValueOne(be, v);
    case Two => ValueTwo(be, v);
    case Four => ValueFour(be, v);
  }

  lemma ValueOne(be: bool, v: int)
    ensures ValueOf(be, [v % 0x100]) == v % 0x100
  {
    assert [v % 0x100][..0] == [] && [v % 0x100][1..] == [];
  }

  lemma ValueTwo(be: bool, v: int)
    ensures ValueOf(be, Bytes(be, Two, v)) == v % 0x10000
  {
    var b := Bytes(be, Two, v);
    if be {
      assert b[..1] == [b[0]];
    } else {
      assert b[1..] == [b[1]];
    }
    PairValue(be, b[0], b[1]);
    assert v % 0x10000 == v / 0x100 % 0x100 * 0x100 + v % 0x100;
  }

  lemma PairValue(be: bool, x: byte, y: byte)
    ensures ValueOf(be, [x, y]) == if be then x * 0x100 + y else x + 0x100 * y
  {
    if be {
      assert [x, y][..1] == [x] && [x][..0] == [];
      assert ValueOf(be, [x]) == x;
    } else {
      assert [x, y][1..] == [y] && [y][1..] == [];
      assert ValueOf(be, [y]) == y;
    }
  }

  lemma ValueFour(be: bool, v: int)
    ensures ValueOf(be, Bytes(be, Four, v)) == v % 0x1_0000_0000
  {
    hide ValueOf;
    FourBytes(be, Bytes(be, Four, v));
    LowBits(v);
  }

  /** The four low digits of a number to the base 256. */
  lemma LowBits(v: int)
    ensures Number(v / 0x1000000 % 0x100, v / 0x10000 % 0x100, v / 0x100 % 0x100, v % 0x100) == v % 0x1_0000_0000
  {
    var p := v / 0x100;
    var q := p / 0x100;
    var r := q / 0x100;
    assert q == v / 0x10000 && r == v / 0x1000000;
    Remainder(v, r / 0x100, Number(r % 0x100, q % 0x100, p % 0x100, v % 0x100));
  }

  lemma Remainder(v: int, k: int, n: int)
    requires v == 0x1_0000_0000 * k + n && 0 <= n < 0x1_0000_0000
    ensures n == v % 0x1_0000_0000
  {
  }

  ghost function Number(a: int, b: int, c: int, d: int): int { a * 0x1000000 + b * 0x10000 + c * 0x100 + d }

  lemma FourBytes(be: bool, s: seq<byte>)
    requires |s| == 4
    ensures ValueOf(be, s) == if be then Number(s[0], s[1], s[2], s[3]) else Number(s[3], s[2], s[1], s[0])
  {
    if be {
      assert s[..3][..2] == [s[0], s[1]];
      PairValue(be, s[0], s[1]);
      assert ValueOf(be, s[..3]) == ValueOf(be, s[..3][..2]) * 0x100 + s[2];
    } else {
      assert s[1..][1..] == [s[2], s[3]];
      PairValue(be, s[2], s[3]);
      assert ValueOf(be, s[1..]) == s[1] + 0x100 * ValueOf(be, s[1..][1..]);
    }
  }

  /** Other bytes would be another value. */
  lemma BytesRoundTrip(be: bool, w: Width, s: seq<byte>)
    requires |s| == Size(w)
    ensures 0 <= ValueOf(be, s) < Range(w) && Bytes(be, w, ValueOf(be, s)) == s
  {
    match w
    case One => assert s[..0] == [] && s[1..] == [];
    case Two => TwoRoundTrip(be, s);
    case Four => FourRoundTrip(be, s);
  }

  lemma TwoRoundTrip(be: bool, s: seq<byte>)
    requires |s| == 2
    ensures 0 <= ValueOf(be, s) < 0x10000 && Bytes(be, Two, ValueOf(be, s)) == s
  {
    hide ValueOf;
    assert s == [s[0], s[1]];
    PairValue(be, s[0], s[1]);
    if be { TwoDigits(s[0], s[1]); } else { TwoDigits(s[1], s[0]); }
  }

  lemma TwoDigits(a: byte, b: byte)
    ensures var v := a * 0x100 + b; v / 0x100 % 0x100 == a && v % 0x100 == b
  {
  }

  lemma FourRoundTrip(be: bool, s: seq<byte>)
    requires |s| == 4
    ensures 0 <= ValueOf(be, s) < 0x1_0000_0000 && Bytes(be, Four, ValueOf(be, s)) == s
  {
    hide ValueOf;
    FourBytes(be, s);
    if be { Digits(s[0], s[1], s[2], s[3]); } else { Digits(s[3], s[2], s[1], s[0]); }
  }

  lemma Digits(a: byte, b: byte, c: byte, d: byte)
    ensures var v := Number(a, b, c, d);
      v / 0x1000000 % 0x100 == a && v / 0x10000 % 0x100 == b && v / 0x100 % 0x100 == c && v % 0x100 == d
  {
    var v := Number(a, b, c, d);
    assert v / 0x1000000 == a;
    assert v / 0x10000 == a * 0x100 + b;
    assert v / 0x100 == a * 0x10000 + b * 0x100 + c;
  }

  ghost function Kept(format: seq<Width>, values: seq<int>): seq<int>
    requires |values| == |format|
  {
    seq(|values|, i requires 0 <= i < |values| => values[i] % Range(format[i]))
  }

  /** getlist gives back what putlist was given, and leaves what comes after it. */
  lemma {:induction false} ListRoundTrip(be: bool, format: seq<Width>, values: seq<int>, rest: seq<byte>)
    requires |values| == |format|
    ensures Unpacked(be, format, Packed(be, format, values) + rest) == (Kept(format, values), rest)
  {
    hide ValueOf, Bytes;
    if format == [] {
      assert [] + rest == rest;
    } else {
      var head, tail := Bytes(be, format[0], values[0]), Packed(be, format[1..], values[1..]) + rest;
      assert Packed(be, format, values) + rest == head + tail;
      ValueRoundTrip(be, format[0], values[0]);
      assert (head + tail)[..|head|] == head && (head + tail)[|head|..] == tail;
      ListRoundTrip(be, format[1..], values[1..], rest);
      assert Kept(format, values) == [values[0] % Range(format[0])] + Kept(format[1..], values[1..]);
      assert Unpacked(be, format, head + tail) == ([ValueOf(be, head)] + Unpacked(be, format[1..], tail).0, Unpacked(be, format[1..], tail).1);
    }
  }

  /** Whatever getlist reads, what it took off is what putlist writes for the values read; it stops short
    only where the next value is not all there. */
  lemma {:induction false} ListRead(be: bool, format: seq<Width>, s: seq<byte>)
    ensures var (values, rest) := Unpacked(be, format, s);
      var n := |values|;
      n <= |format| && Packed(be, format[..n], values) + rest == s && (n < |format| ==> |rest| < Size(format[n]))
  {
    hide ValueOf, Bytes;
    if format != [] && |s| >= Size(format[0]) {
      var k := Size(format[0]);
      ListRead(be, format[1..], s[k..]);
      var (values, rest) := Unpacked(be, format, s);
      BytesRoundTrip(be, format[0], s[..k]);
      assert format[..|values|][1..] == format[1..][..|values| - 1];
      assert s == s[..k] + s[k..];
    }
  }

  // ---------- frames ----------

  /** The bodies of the frames that a sequence of bytes is made up of, found by their lengths alone. */
  ghost function Bodies(be: bool, s: seq<byte>): Option<seq<seq<byte>>>
    decreases |s|
  {
    if s == [] then Some([])
    else if |s| < 4 || |s| < 4 + ValueOf(be, s[..4]) || ValueOf(be, s[..4]) < 0 then None
    else
      var n := ValueOf(be, s[..4]);
      var more := Bodies(be, s[4 + n..]);
      if more.None? then None else Some([s[4..4 + n]] + more.value)
  }

  ghost function BodiesOf(be: bool, pieces: seq<Piece>): seq<seq<byte>> {
    if pieces == [] then []
    else [if pieces[0].Framed? then Encoded(be, pieces[0].body) else []] + BodiesOf(be, pieces[1..])
  }

  /** Frames, with whatever frames in them, are told apart by the lengths that endlen wrote: where a body is
    too long for its length field there is no frame of that body. */
  lemma {:induction false} FramesFound(be: bool, pieces: seq<Piece>)
    requires forall p <- pieces :: p.Framed? && |Encoded(be, p.body)| < 0x1_0000_0000
    ensures Bodies(be, Encoded(be, pieces)) == Some(BodiesOf(be, pieces))
  {
    hide Bodies, Bytes32;
    if pieces != [] {
      var body, rest := Encoded(be, pieces[0].body), Encoded(be, pieces[1..]);
      assert pieces[0] in pieces;
      BodyFirst(be, body, rest);
      FramesFound(be, pieces[1..]);
      assert Encoded(be, pieces) == EncodedPiece(be, pieces[0]) + rest;
      FrameIs(be, pieces[0]);
    } else {
      assert Encoded(be, pieces) == [];
      NoBodies(be);
    }
  }

  lemma FrameIs(be: bool, p: Piece)
    requires p.Framed?
    ensures EncodedPiece(be, p) == Bytes32(be, |Encoded(be, p.body)|) + Encoded(be, p.body)
  {
  }

  lemma NoBodies(be: bool)
    ensures Bodies(be, []) == Some([])
  {
  }

  lemma BodyFirst(be: bool, body: seq<byte>, rest: seq<byte>)
    requires |body| < 0x1_0000_0000
    ensures var more := Bodies(be, rest);
      Bodies(be, Bytes32(be, |body|) + body + rest) == if more.None? then None else Some([body] + more.value)
  {
    hide Bodies, ValueOf;
    ValueRoundTrip(be, Four, |body|);
    BodyBehind(be, Bytes32(be, |body|), body, rest);
  }

  lemma BodyBehind(be: bool, head: seq<byte>, body: seq<byte>, rest: seq<byte>)
    requires |head| == 4 && ValueOf(be, head) == |body|
    ensures var more := Bodies(be, rest);
      Bodies(be, head + body + rest) == if more.None? then None else Some([body] + more.value)
  {
    hide ValueOf;
    var s := head + body + rest;
    assert s[..4] == head && s[4..4 + |body|] == body && s[4 + |body|..] == rest;
  }

  // ---------- lines ----------

  /** All the lines that are complete, and the rest. */
  ghost function Lines(s: seq<byte>): seq<seq<byte>> { FirstLines(s, |s|).0 }

  ghost function Left(s: seq<byte>): seq<byte> { FirstLines(s, |s|).1 }

  /** What comes behind a complete line does not change it. */
  lemma LineStays(s: seq<byte>, x: seq<byte>)
    requires FirstLine(s).Some?
    ensures FirstLine(s + x) == FirstLine(s)
  {
    NewlineStays(s, x);
    var k := Newline(s).value;
    assert (s + x)[..k] == s[..k];
  }

  lemma NewlineStays(s: seq<byte>, x: seq<byte>)
    requires Newline(s).Some?
    ensures Newline(s + x) == Newline(s)
  {
    if s[0] != LF {
      assert (s + x)[1..] == s[1..] + x;
      NewlineStays(s[1..], x);
    }
  }

  lemma {:induction false} LinesStay(s: seq<byte>, num: nat, x: seq<byte>)
    requires |FirstLines(s, num).0| == num
    ensures FirstLines(s + x, num) == (FirstLines(s, num).0, FirstLines(s, num).1 + x)
  {
    hide FirstLine;
    if num > 0 && FirstLine(s).Some? {
      LineStays(s, x);
      var n := FirstLine(s).value.1;
      assert (s + x)[n..] == s[n..] + x;
      LinesStay(s[n..], num - 1, x);
    }
  }

  /** Lines taken in two goes are the lines taken in one. */
  lemma {:induction false} LinesOnward(s: seq<byte>, num: nat, more: nat)
    requires |FirstLines(s, num).0| == num
    ensures var (lines, rest) := FirstLines(s, num);
      FirstLines(s, num + more) == (lines + FirstLines(rest, more).0, FirstLines(rest, more).1)
  {
    hide FirstLine;
    if num > 0 && FirstLine(s).Some? {
      var (line, n) := FirstLine(s).value;
      LinesOnward(s[n..], num - 1, more);
      var rest := FirstLines(s[n..], num - 1);
      assert [line] + (rest.0 + FirstLines(rest.1, more).0) == ([line] + rest.0) + FirstLines(rest.1, more).0;
    } else {
      assert [] + FirstLines(s, more).0 == FirstLines(s, more).0;
    }
  }

  /** How many were asked for does not matter, but how many there were. */
  lemma {:induction false} LinesGot(s: seq<byte>, num: nat)
    ensures var (lines, rest) := FirstLines(s, num);
      |lines| <= num && |lines| + |rest| <= |s| && FirstLines(s, |lines|) == (lines, rest)
    ensures |FirstLines(s, num).0| < num ==> FirstLine(FirstLines(s, num).1).None?
  {
    hide Newline, Stripped;
    if num > 0 && FirstLine(s).Some? {
      LinesGot(s[FirstLine(s).value.1..], num - 1);
    }
  }

  datatype Op = Push(bytes: seq<byte>) | Take(num: nat)

  ghost function Pushed(ops: seq<Op>): seq<byte> {
    if ops == [] then []
    else
      var all := Pushed(ops[..|ops| - 1]);
      var op := ops[|ops| - 1];
      if op.Push? then all + op.bytes else all
  }

  /** The lines taken, and what is left in the buffer. */
  ghost function Taken(ops: seq<Op>): (seq<seq<byte>>, seq<byte>) {
    if ops == [] then ([], [])
    else
      var (lines, rest) := Taken(ops[..|ops| - 1]);
      match ops[|ops| - 1]
      case Push(bytes) => (lines, rest + bytes)
      case Take(num) =>
        var (more, left) := FirstLines(rest, num);
        (lines + more, left)
  }

  /** However the bytes come and whenever lines are taken, they are the first lines of all that came, and
    what is left is what is behind them. */
  lemma {:induction false} ChunksDoNotMatter(ops: seq<Op>)
    ensures var (lines, rest) := Taken(ops);
      FirstLines(Pushed(ops), |lines|) == (lines, rest)
  {
    hide FirstLines;
    if ops == [] {
      assert FirstLines([], 0) == ([], []) by { LinesGot([], 0); NoLines(); }
    } else {
      var before := ops[..|ops| - 1];
      var (lines, rest) := Taken(before);
      ChunksDoNotMatter(before);
      match ops[|ops| - 1]
      case Push(bytes) => LinesStay(Pushed(before), |lines|, bytes);
      case Take(num) =>
        var more := FirstLines(rest, num).0;
        LinesGot(rest, num);
        LinesOnward(Pushed(before), |lines|, |more|);
    }
  }

  lemma NoLines()
    ensures FirstLines([], 0) == ([], [])
  {
  }

  /** So they are a prefix of the lines of the whole, and all of them once no more can be had. */
  lemma LinesOfTheWhole(ops: seq<Op>)
    ensures var (lines, rest) := Taken(ops);
      lines <= Lines(Pushed(ops)) && (FirstLine(rest).None? <==> (lines, rest) == (Lines(Pushed(ops)), Left(Pushed(ops))))
  {
    hide FirstLines, FirstLine, Pushed, Taken;
    var (lines, rest) := Taken(ops);
    var all := Pushed(ops);
    ChunksDoNotMatter(ops);
    LinesGot(all, |lines|);
    LinesOnward(all, |lines|, |all| - |lines|);
    LinesGot(rest, |all| - |lines|);
    if FirstLine(rest).None? {
      NoMoreLines(rest, |all| - |lines|);
      assert lines + [] == lines;
    }
    LinesGot(all, |all|);
    if Left(all) == rest && Lines(all) == lines {
      Drained(all);
    }
  }

  lemma NoMoreLines(s: seq<byte>, num: nat)
    requires FirstLine(s).None?
    ensures FirstLines(s, num) == ([], s)
  {
  }

  lemma Drained(s: seq<byte>)
    ensures FirstLine(Left(s)).None?
  {
    hide Newline, Stripped;
    LinesGot(s, |s|);
  }

  /** Segments, each with its LF. */
  ghost function Joined(segs: seq<seq<byte>>): seq<byte> {
    if segs == [] then [] else segs[0] + [LF] + Joined(segs[1..])
  }

  ghost function AllStripped(segs: seq<seq<byte>>): seq<seq<byte>> {
    seq(|segs|, i requires 0 <= i < |segs| => Stripped(segs[i]))
  }

  /** A segment that a line can be: no LF in it and no NUL at its start. */
  ghost predicate Plainly(seg: seq<byte>) { LF !in seg && (seg != [] ==> seg[0] != 0) }

  /** What the lines are, whatever the bytes: the segments between the LFs, up to the first with a NUL at its start. */
  lemma {:induction false} LinesAreSegments(segs: seq<seq<byte>>, tail: seq<byte>)
    requires (forall seg <- segs :: Plainly(seg)) && (LF !in tail || tail[0] == 0)
    ensures Lines(Joined(segs) + tail) == AllStripped(segs) && Left(Joined(segs) + tail) == tail
  {
    hide FirstLines, FirstLine;
    var s := Joined(segs) + tail;
    SegmentsFirst(segs, tail);
    NotALine(tail);
    LinesGot(s, |segs|);
    LinesOnward(s, |segs|, |s| - |segs|);
    NoMoreLines(tail, |s| - |segs|);
    assert AllStripped(segs) + [] == AllStripped(segs);
  }

  /** What is stripped is one CR or NUL at the end. */
  lemma StrippedIs(seg: seq<byte>)
    ensures LF == 10
    ensures Stripped(seg) == seg <==> seg == [] || (seg[|seg| - 1] != 13 && seg[|seg| - 1] != 0)
    ensures Stripped(seg) != seg ==> seg == Stripped(seg) + [13] || seg == Stripped(seg) + [0]
  {
    if Stripped(seg) != seg {
      assert seg == seg[..|seg| - 1] + [seg[|seg| - 1]];
    }
  }

  lemma NotALine(tail: seq<byte>)
    requires LF !in tail || tail[0] == 0
    ensures FirstLine(tail).None?
  {
  }

  lemma {:induction false} SegmentsFirst(segs: seq<seq<byte>>, tail: seq<byte>)
    requires forall seg <- segs :: Plainly(seg)
    ensures FirstLines(Joined(segs) + tail, |segs|) == (AllStripped(segs), tail)
  {
    hide Stripped, FirstLine;
    if segs == [] {
      assert [] + tail == tail;
    } else {
      var seg, rest := segs[0], Joined(segs[1..]) + tail;
      var s := Joined(segs) + tail;
      assert s == seg + [LF] + rest;
      assert seg in segs && Plainly(seg);
      SegmentFirst(seg, rest);
      assert s[|seg| + 1..] == rest;
      SegmentsFirst(segs[1..], tail);
      assert AllStripped(segs) == [Stripped(seg)] + AllStripped(segs[1..]);
    }
  }

  lemma SegmentFirst(seg: seq<byte>, rest: seq<byte>)
    requires Plainly(seg)
    ensures FirstLine(seg + [LF] + rest) == Some((Stripped(seg), |seg| + 1))
  {
    hide Newline, Stripped;
    NewlineAt(seg, rest);
    assert (seg + [LF] + rest)[..|seg|] == seg;
  }

  lemma {:induction false} NewlineAt(seg: seq<byte>, rest: seq<byte>)
    requires LF !in seg
    ensures Newline(seg + [LF] + rest) == Some(|seg|)
  {
    var s := seg + [LF] + rest;
    if seg != [] {
      assert s[1..] == seg[1..] + [LF] + rest;
      NewlineAt(seg[1..], rest);
    }
  }

  /** Every sequence of bytes is so made up. */
  lemma {:induction false} Segmented(s: seq<byte>) returns (segs: seq<seq<byte>>, tail: seq<byte>)
    ensures s == Joined(segs) + tail && (forall seg <- segs :: Plainly(seg)) && (LF !in tail || tail[0] == 0)
    decreases |s|
  {
    hide Newline;
    NewlineFirst(s);
    var k := Newline(s);
    if s == [] || s[0] == 0 || k.None? {
      segs, tail := [], s;
      assert [] + s == s;
    } else {
      var more;
      more, tail := Segmented(s[k.value + 1..]);
      segs := [s[..k.value]] + more;
      assert segs[1..] == more && s == s[..k.value] + [LF] + s[k.value + 1..];
    }
  }

  lemma {:induction false} NewlineFirst(s: seq<byte>)
    ensures match Newline(s) case None => LF !in s case Some(k) => LF !in s[..k]
  {
    if s != [] && s[0] != LF {
      NewlineFirst(s[1..]);
      if Newline(s).Some? {
        assert s[..Newline(s).value] == [s[0]] + s[1..][..Newline(s).value - 1];
      }
    }
  }

  /** The buffer itself, pushed to and taken from in any order. */
  method Drive(ops: seq<Op>, minsiz: nat, pagesize: nat, be: bool) returns (lines: seq<seq<byte>>, buf: Buffer)
    requires pagesize > 0
    ensures fresh(buf) && buf.Valid() && (lines, buf.Content()) == Taken(ops)
  {
    hide FirstLines;
    buf := new Buffer(minsiz, pagesize, be);
    lines := [];
    assert ops[..0] == [];
    for i := 0 to |ops|
      invariant fresh(buf) && fresh(buf.mem) && buf.Valid() && (lines, buf.Content()) == Taken(ops[..i])
    {
      assert ops[..i + 1][..i] == ops[..i];
      match ops[i]
      case Push(bytes) => buf.Push(bytes);
      case Take(num) =>
        var more := buf.GetLines(num);
        lines := lines + more;
    }
    assert ops[..|ops|] == ops;
  }
}
