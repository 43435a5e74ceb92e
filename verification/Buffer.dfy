/** The byte buffer of lbuffer.c: a data area with gaps before and behind it inside one block of memory. */
module Buffers {
  import opened Tasks

  type byte = n: int | 0 <= n < 256

  const LF: byte := 10
  const CR: byte := 13

  class Buffer {
    const minsiz: nat
    const be: bool
    var mem: array<byte>
    var data: nat
    var datasiz: nat

    /** The data lies within the memory. */
    ghost predicate Valid()
      reads this
    {
      minsiz > 0 && data + datasiz <= mem.Length
    }

    /** All that a user of the buffer can tell. */
    ghost function Content(): (s: seq<byte>)
      requires Valid()
      reads this, mem
      ensures |s| == datasiz
    {
      mem[data..data + datasiz]
    }

    /** buffer_init; without a size the page size is taken, which is a parameter here. */
    constructor (minsiz: nat, pagesize: nat, be: bool)
      requires pagesize > 0
      ensures Valid() && Content() == [] && this.be == be && fresh(mem)
    {
      this.minsiz := if minsiz == 0 then pagesize else minsiz;
      this.be := be;
      mem := new byte[0];
      data, datasiz := 0, 0;
    }

    /** memmove to the start of the memory. */
    method MoveToFront()
      requires Valid()
      modifies `data, mem
      ensures Valid() && Content() == old(Content()) && data == 0
    {
      forall i | 0 <= i < datasiz {
        mem[i] := mem[data + i];
      }
      data := 0;
    }

    /** The size that doubling arrives at; it ends, as the size it starts from is not 0. */
    method Doubled(reqsiz: nat) returns (newsiz: nat)
      requires Valid()
      ensures newsiz >= reqsiz && newsiz >= 1
    {
      newsiz := mem.Length * 2;
      if newsiz == 0 {
        newsiz := minsiz;
      }
      while newsiz < reqsiz
        invariant newsiz >= 1
        decreases reqsiz - newsiz
      {
        newsiz := newsiz * 2;
      }
    }

    /** buffer_grow: room for `growth` bytes behind the data, by what moves least; the new bytes are whatever
      was there.  Returns where they start. */
    method Grow(growth: nat) returns (p: nat)
      requires Valid()
      modifies this, mem
      ensures Valid() && datasiz == old(datasiz) + growth && p == data + old(datasiz)
      ensures Content()[..old(datasiz)] == old(Content()) && (mem == old(mem) || fresh(mem))
    {
      ghost var s := Content();
      var lgap, rgap := data, mem.Length - datasiz - data;
      if rgap < growth {
        if lgap + rgap >= growth {
          MoveToFront();
        } else {
          var newsiz := Doubled(growth + datasiz);
          var block := new byte[newsiz];
          forall i | 0 <= i < datasiz {
            block[i] := mem[data + i];
          }
          mem, data := block, 0;
        }
      }
      assert mem[data..data + datasiz] == s;
      p := data + datasiz;
      datasiz := datasiz + growth;
      assert Content()[..|s|] == s;
    }

    /** buffer_push. */
    method Push(bytes: seq<byte>)
      requires Valid()
      modifies this, mem
      ensures Valid() && Content() == old(Content()) + bytes && (mem == old(mem) || fresh(mem))
    {
      ghost var s := Content();
      var p := Grow(|bytes|);
      Fill(p, bytes, s);
    }

    method Fill(p: nat, bytes: seq<byte>, ghost s: seq<byte>)
      requires Valid() && datasiz == |s| + |bytes| && p == data + |s| && Content()[..|s|] == s
      modifies mem
      ensures Valid() && Content() == s + bytes
    {
      ghost var c := Content();
      forall i | 0 <= i < |s| ensures mem[data + i] == s[i] {
        assert c[i] == mem[data + i] && c[..|s|][i] == c[i];
      }
      forall i | 0 <= i < |bytes| {
        mem[p + i] := bytes[i];
      }
    }

    /** buffer_adjust: the data is moved to the front where that is cheap for what it gains. */
    method Adjust()
      requires Valid()
      modifies `data, mem
      ensures Valid() && Content() == old(Content())
    {
      if datasiz == 0 {
        data := 0;
      } else {
        var lgap, memsiz := data, mem.Length;
        var rgap := memsiz - lgap - datasiz;
        var relsmall := datasiz < lgap / 4 && datasiz < rgap / 4;
        var abssmall := datasiz < memsiz / 100 || datasiz < 64;
        var close2end := lgap * 4 > memsiz * 3 && datasiz > rgap;
        if lgap != 0 && (relsmall || abssmall || close2end) {
          MoveToFront();
        }
      }
    }

    /** buffer_pop drops bytes at the end, buffer_shift at the start; all of them if there are no more. */
    method Pop(siz: nat)
      requires Valid()
      modifies this, mem
      ensures Valid() && mem == old(mem)
      ensures Content() == if siz <= old(datasiz) then old(Content())[..old(datasiz) - siz] else []
    {
      var n := if siz > datasiz then datasiz else siz;
      datasiz := datasiz - n;
      Adjust();
    }

    method Shift(siz: nat)
      requires Valid()
      modifies this, mem
      ensures Valid() && mem == old(mem)
      ensures Content() == if siz <= old(datasiz) then old(Content())[siz..] else []
    {
      var n := if siz > datasiz then datasiz else siz;
      datasiz := datasiz - n;
      data := data + n;
      Adjust();
    }

    method Rewind()
      requires Valid()
      modifies this
      ensures Valid() && mem == old(mem) && Content() == []
    {
      data, datasiz := 0, 0;
    }

    /** buffer_reset also gives back memory beyond the least size. */
    method Reset()
      requires Valid()
      modifies this
      ensures Valid() && Content() == [] && (mem == old(mem) || fresh(mem))
      ensures mem.Length <= if old(mem.Length) > minsiz then minsiz else old(mem.Length)
    {
      if mem.Length > minsiz {
        var block := new byte[minsiz];
        mem := block;
      }
      data, datasiz := 0, 0;
    }

    // ---------- frames ----------

    /** Bytes of the data are overwritten. */
    method Overwrite(i: nat, bytes: seq<byte>)
      requires Valid() && i + |bytes| <= datasiz
      modifies mem
      ensures Valid() && Content() == old(Content())[..i] + bytes + old(Content())[i + |bytes|..]
    {
      forall k | 0 <= k < |bytes| {
        mem[data + i + k] := bytes[k];
      }
    }

    /** beginlen: room for a length, and the mark behind it. */
    method BeginLen() returns (mark: nat)
      requires Valid()
      modifies this, mem
      ensures Valid() && (mem == old(mem) || fresh(mem))
      ensures mark == old(datasiz) + 4 == datasiz && Content()[..old(datasiz)] == old(Content())
    {
      var _ := Grow(4);
      mark := datasiz;
    }

    /** endlen: the number of bytes behind the mark goes before it; nothing happens for a mark that is none. */
    method EndLen(mark: nat)
      requires Valid()
      modifies mem
      ensures Valid()
      ensures Content() == if 4 <= mark <= datasiz
        then old(Content())[..mark - 4] + Bytes32(be, datasiz - mark) + old(Content())[mark..] else old(Content())
    {
      if mark >= 4 && mark <= datasiz {
        Overwrite(mark - 4, Bytes32(be, datasiz - mark));
      }
    }

    /** Frames within frames, each between its beginlen and its endlen. */
    method PutPieces(pieces: seq<Piece>)
      requires Valid()
      modifies this, mem
      ensures Valid() && Content() == old(Content()) + Encoded(be, pieces) && (mem == old(mem) || fresh(mem))
      decreases pieces, 0
    {
      ghost var s := Content();
      assert pieces[0..] == pieces;
      for i := 0 to |pieces|
        invariant Valid() && (mem == old(mem) || fresh(mem))
        invariant Content() + Encoded(be, pieces[i..]) == s + Encoded(be, pieces)
      {
        EncodedStep(be, Content(), pieces, i);
        match pieces[i]
        case Raw(bytes) => Push(bytes);
        case Framed(body) => PutFrame(body);
      }
      assert pieces[|pieces|..] == [];
    }

    method PutFrame(body: seq<Piece>)
      requires Valid()
      modifies this, mem
      ensures Valid() && Content() == old(Content()) + EncodedPiece(be, Framed(body)) && (mem == old(mem) || fresh(mem))
      decreases body, 1
    {
      hide Encoded, EncodedPiece, Bytes32;
      ghost var s := Content();
      var mark := BeginLen();
      ghost var c := Content();
      PutPieces(body);
      FrameRoom(s, c, Content(), Encoded(be, body), mark);
      CloseFrame(mark, s, Encoded(be, body));
      FrameMade(be, s, body);
    }

    method CloseFrame(mark: nat, ghost s: seq<byte>, ghost body: seq<byte>)
      requires Valid() && 4 <= mark <= datasiz && Content()[..mark - 4] == s && Content()[mark..] == body
      modifies mem
      ensures Valid() && Content() == s + Bytes32(be, |body|) + body
    {
      hide Bytes32;
      EndLen(mark);
    }

    /** Where the length goes, and what is behind it. */
    lemma FrameRoom(s: seq<byte>, c: seq<byte>, e: seq<byte>, body: seq<byte>, mark: nat)
      requires mark == |s| + 4 == |c| && c[..|s|] == s && e == c + body
      ensures e[..mark - 4] == s && e[mark..] == body && |e| - mark == |body|
    {
    }

    // ---------- lists of typed values ----------

    /** putlist, for a format of the types it knows. */
    method PutList(format: seq<Width>, values: seq<int>)
      requires Valid() && |values| == |format|
      modifies this, mem
      ensures Valid() && Content() == old(Content()) + Packed(be, format, values) && (mem == old(mem) || fresh(mem))
    {
      ghost var s := Content();
      assert format[0..] == format && values[0..] == values;
      for i := 0 to |format|
        invariant Valid() && (mem == old(mem) || fresh(mem))
        invariant Content() + Packed(be, format[i..], values[i..]) == s + Packed(be, format, values)
      {
        PackedStep(be, Content(), format, values, i);
        Push(Bytes(be, format[i], values[i]));
      }
      assert format[|format|..] == [];
    }

    /** getlist: it stops at the first value that is not all there. */
    method GetList(format: seq<Width>) returns (values: seq<int>)
      requires Valid()
      modifies this, mem
      ensures Valid() && mem == old(mem) && (values, Content()) == Unpacked(be, format, old(Content()))
    {
      hide Unpacked, ValueOf;
      ghost var all := Unpacked(be, format, Content());
      values := [];
      assert format[0..] == format && [] + all.0 == all.0;
      for i := 0 to |format|
        invariant Valid() && mem == old(mem)
        invariant all == (values + Unpacked(be, format[i..], Content()).0, Unpacked(be, format[i..], Content()).1)
      {
        var n := Size(format[i]);
        UnpackedStep(be, format, Content(), i);
        if datasiz < n {
          assert values + [] == values;
          return;
        }
        ghost var c := Content();
        var v := ValueOf(be, mem[data..data + n]);
        assert mem[data..data + n] == c[..n];
        Shift(n);
        assert values + ([v] + Unpacked(be, format[i + 1..], c[n..]).0) == (values + [v]) + Unpacked(be, format[i + 1..], c[n..]).0;
        values := values + [v];
      }
      UnpackedNone(be, format[|format|..], Content());
      assert values + [] == values;
    }

    // ---------- lines ----------

    /** buffer:getline: up to `num` lines from the front; the terminators are overwritten in place. */
    method GetLines(num: nat) returns (lines: seq<seq<byte>>)
      requires Valid()
      modifies this, mem
      ensures Valid() && mem == old(mem)
      ensures (lines, Content()) == FirstLines(old(Content()), num)
    {
      hide FirstLines;
      var rd := new Reader(mem, data, datasiz);
      lines := rd.GetLines(num);
      var eaten := rd.data - rd.start;
      assert rd.Rest() == Content()[eaten..];
      Shift(eaten);
    }
  }

  /** The reader of lreader.c, over part of a block of memory. */
  class Reader {
    const mem: array<byte>
    const start: nat
    const stop: nat
    var data: nat

    ghost predicate Valid()
      reads this
    {
      start <= data <= stop <= mem.Length
    }

    ghost function Rest(): (s: seq<byte>)
      requires Valid()
      reads this, mem
    {
      mem[data..stop]
    }

    constructor (mem: array<byte>, data: nat, datasiz: nat)
      requires data + datasiz <= mem.Length
      ensures Valid() && this.mem == mem && start == data && stop == data + datasiz && this.data == data
    {
      this.mem, start, stop := mem, data, data + datasiz;
      this.data := data;
    }

    /** reader_getline. */
    method GetLine() returns (line: Option<seq<byte>>)
      requires Valid()
      modifies `data, mem
      ensures Valid() && data >= old(data)
      ensures var l := FirstLine(old(Rest()));
        if l.None? then line == None && Rest() == old(Rest()) else line == Some(l.value.0) && Rest() == old(Rest())[l.value.1..]
    {
      ghost var s := Rest();
      if data == stop || mem[data] == 0 {
        return None;
      }
      var p := Scan();
      if p == stop {
        return None;
      }
      assert s[..p - data] == mem[data..p] && s[p - data + 1..] == mem[p + 1..stop];
      assert p > data ==> s[p - data - 1] == mem[p - 1];
      var str := Terminate(p, s[..p - data]);
      line := Some(str);
      ghost var n := p + 1 - data;
      data := p + 1;
      assert Rest() == s[n..];
    }

    /** reader:getline. */
    method GetLines(num: nat) returns (lines: seq<seq<byte>>)
      requires Valid()
      modifies `data, mem
      ensures Valid() && (lines, Rest()) == FirstLines(old(Rest()), num)
    {
      hide FirstLine, FirstLines;
      lines := [];
      ghost var all := FirstLines(Rest(), num);
      assert lines + all.0 == all.0;
      for i := 0 to num
        invariant Valid() && all == (lines + FirstLines(Rest(), num - i).0, FirstLines(Rest(), num - i).1)
      {
        ghost var s := Rest();
        var line := GetLine();
        FirstLinesStep(s, num - i);
        if line.Some? {
          assert lines + ([line.value] + FirstLines(Rest(), num - i - 1).0) == (lines + [line.value]) + FirstLines(Rest(), num - i - 1).0;
          lines := lines + [line.value];
        } else {
          FirstLinesStep(s, num - i - 1);
        }
      }
      FirstLinesStep(Rest(), 0);
      assert lines + [] == lines;
    }

    lemma FirstLinesStep(s: seq<byte>, num: nat)
      ensures num == 0 || FirstLine(s).None? ==> FirstLines(s, num) == ([], s)
      ensures num > 0 && FirstLine(s).Some? ==>
        var (line, n) := FirstLine(s).value;
        FirstLines(s, num) == ([line] + FirstLines(s[n..], num - 1).0, FirstLines(s[n..], num - 1).1)
    {
    }

    /** The search for the terminator. */
    method Scan() returns (p: nat)
      requires Valid()
      ensures data <= p <= stop && Newline(Rest()) == if p == stop then None else Some(p - data)
    {
      hide Newline;
      ghost var s := Rest();
      p := data;
      assert s[0..] == s;
      while p < stop && mem[p] != LF
        invariant data <= p <= stop && Newline(s) == (if Newline(s[p - data..]).None? then None else Some(p - data + Newline(s[p - data..]).value))
      {
        assert s[p - data] == mem[p];
        NewlineFrom(s, p - data);
        p := p + 1;
      }
      NewlineFrom(s, p - data);
    }

    lemma NewlineFrom(s: seq<byte>, i: nat)
      requires i <= |s|
      ensures i == |s| ==> Newline(s[i..]).None?
      ensures i < |s| && s[i] == LF ==> Newline(s[i..]) == Some(0)
      ensures i < |s| && s[i] != LF ==>
        Newline(s[i..]) == if Newline(s[i + 1..]).None? then None else Some(Newline(s[i + 1..]).value + 1)
    {
      if i < |s| {
        assert s[i..][0] == s[i] && s[i..][1..] == s[i + 1..];
      }
    }

    /** The terminator at `p` and a CR before it become NULs, and the line ends before them. */
    method Terminate(p: nat, ghost line: seq<byte>) returns (str: seq<byte>)
      requires Valid() && data <= p < stop && line == mem[data..p]
      modifies mem
      ensures str == Stripped(line) && mem[p + 1..stop] == old(mem[p + 1..stop])
    {
      var eaten := p - data + 1;
      mem[p] := 0;
      if p > data && mem[p - 1] == CR {
        mem[p - 1] := 0;
      }
      if mem[data + eaten - 1] == 0 {
        eaten := eaten - 1;
      }
      assert eaten == |line|;
      assert eaten > 0 ==> (mem[data + eaten - 1] == 0 <==> line[eaten - 1] == CR || line[eaten - 1] == 0);
      if eaten > 0 && mem[data + eaten - 1] == 0 {
        eaten := eaten - 1;
      }
      str := mem[data..data + eaten];
      assert eaten == |Stripped(line)|;
      assert forall i :: 0 <= i < |str| ==> str[i] == line[i];
      assert str == line[..eaten];
    }
  }

  // ---------- integers as bytes ----------

  /** The widths of the types c and b, w, i and u. */
  datatype Width = One | Two | Four

  function Size(w: Width): nat { match w case One => 1 case Two => 2 case Four => 4 }

  ghost function Range(w: Width): nat { match w case One => 0x100 case Two => 0x10000 case Four => 0x100000000 }

  function Reversed(s: seq<byte>): seq<byte> { seq(|s|, i requires 0 <= i < |s| => s[|s| - 1 - i]) }

  /** The stores of lstdimpl.h, which keep the low bits of what a cast to uint32 leaves. */
  function Bytes32(be: bool, v: int): seq<byte> {
    var b := [v / 0x1000000 % 0x100, v / 0x10000 % 0x100, v / 0x100 % 0x100, v % 0x100];
    if be then b else Reversed(b)
  }

  function Bytes(be: bool, w: Width, v: int): seq<byte> {
    match w
    case One => [v % 0x100]
    case Two => if be then [v / 0x100 % 0x100, v % 0x100] else [v % 0x100, v / 0x100 % 0x100]
    case Four => Bytes32(be, v)
  }

  /** The loads of lstdimpl.h, most significant byte first or last. */
  function ValueOf(be: bool, s: seq<byte>): int
    decreases |s|
  {
    if s == [] then 0
    else if be then ValueOf(be, s[..|s| - 1]) * 0x100 + s[|s| - 1]
    else s[0] + 0x100 * ValueOf(be, s[1..])
  }

  ghost function Packed(be: bool, format: seq<Width>, values: seq<int>): seq<byte>
    requires |values| == |format|
  {
    if format == [] then [] else Bytes(be, format[0], values[0]) + Packed(be, format[1..], values[1..])
  }

  lemma PackedStep(be: bool, s: seq<byte>, format: seq<Width>, values: seq<int>, i: nat)
    requires |values| == |format| && i < |format|
    ensures s + Packed(be, format[i..], values[i..]) == (s + Bytes(be, format[i], values[i])) + Packed(be, format[i + 1..], values[i + 1..])
  {
    assert format[i..][1..] == format[i + 1..] && values[i..][1..] == values[i + 1..];
  }

  ghost function Unpacked(be: bool, format: seq<Width>, s: seq<byte>): (seq<int>, seq<byte>) {
    if format == [] || |s| < Size(format[0]) then ([], s)
    else
      var n := Size(format[0]);
      var r := Unpacked(be, format[1..], s[n..]);
      ([ValueOf(be, s[..n])] + r.0, r.1)
  }

  lemma UnpackedStep(be: bool, format: seq<Width>, s: seq<byte>, i: nat)
    requires i < |format|
    ensures |s| < Size(format[i]) ==> Unpacked(be, format[i..], s) == ([], s)
    ensures |s| >= Size(format[i]) ==>
      var n := Size(format[i]);
      Unpacked(be, format[i..], s) == ([ValueOf(be, s[..n])] + Unpacked(be, format[i + 1..], s[n..]).0, Unpacked(be, format[i + 1..], s[n..]).1)
  {
    assert format[i..][1..] == format[i + 1..];
  }

  lemma UnpackedNone(be: bool, format: seq<Width>, s: seq<byte>)
    requires format == []
    ensures Unpacked(be, format, s) == ([], s)
  {
  }

  // ---------- frames ----------

  /** Bytes, or a frame around more of the same. */
  datatype Piece = Raw(bytes: seq<byte>) | Framed(body: seq<Piece>)

  /** A frame is its body behind the length of the body. */
  ghost function EncodedPiece(be: bool, p: Piece): seq<byte> {
    match p
    case Raw(bytes) => bytes
    case Framed(body) => Bytes32(be, |Encoded(be, body)|) + Encoded(be, body)
  }

  ghost function Encoded(be: bool, pieces: seq<Piece>): seq<byte> {
    if pieces == [] then [] else EncodedPiece(be, pieces[0]) + Encoded(be, pieces[1..])
  }

  lemma EncodedStep(be: bool, s: seq<byte>, pieces: seq<Piece>, i: nat)
    requires i < |pieces|
    ensures s + Encoded(be, pieces[i..]) == (s + EncodedPiece(be, pieces[i])) + Encoded(be, pieces[i + 1..])
  {
    assert pieces[i..][1..] == pieces[i + 1..];
  }

  lemma FrameMade(be: bool, s: seq<byte>, body: seq<Piece>)
    ensures s + Bytes32(be, |Encoded(be, body)|) + Encoded(be, body) == s + EncodedPiece(be, Framed(body))
  {
  }

  // ---------- lines ----------

  /** Where the first LF is. */
  ghost function Newline(s: seq<byte>): (k: Option<nat>)
    ensures k.Some? ==> k.value < |s| && s[k.value] == LF
  {
    if s == [] then None
    else if s[0] == LF then Some(0)
    else
      var k := Newline(s[1..]);
      if k.None? then None else Some(k.value + 1)
  }

  /** The first line without its terminator, and the number of bytes it takes up; a NUL at the start of a
    line blocks it, one at its end is stripped like a CR. */
  ghost function FirstLine(s: seq<byte>): (l: Option<(seq<byte>, nat)>)
    ensures l.Some? ==> 0 < l.value.1 <= |s|
  {
    var k := Newline(s);
    if s == [] || s[0] == 0 || k.None? then None else Some((Stripped(s[..k.value]), k.value + 1))
  }

  /** Without the CR, or the NUL, at its end. */
  ghost function Stripped(line: seq<byte>): seq<byte> {
    if line != [] && (line[|line| - 1] == CR || line[|line| - 1] == 0) then line[..|line| - 1] else line
  }

  /** The first `num` lines, or as many as there are, and what is left. */
  ghost function FirstLines(s: seq<byte>, num: nat): (seq<seq<byte>>, seq<byte>)
    decreases num
  {
    var l := FirstLine(s);
    if num == 0 || l.None? then ([], s)
    else
      var r := FirstLines(s[l.value.1..], num - 1);
      ([l.value.0] + r.0, r.1)
  }
}
