/** The chunked coding: written by httpd.lua through one buffer, read by http.lua. */
module Chunked {
  import opened Tasks
  import opened Buffers
  import opened BufferTheorems
  import opened UrlCodec

  const CRLF: seq<byte> := [CR, LF]
  const ZERO: byte := 48

  /** Room for the size of a chunk, which is known when the chunk is sent. */
  const START: seq<byte> := [ZERO, ZERO, ZERO, ZERO, CR, LF]
  const LAST: seq<byte> := [ZERO, CR, LF, CR, LF]

  function Hex(n: nat): (h: seq<byte>)
    ensures h != []
  {
    if n < 16 then [Digit(n)] else Hex(n / 16) + [Digit(n % 16)]
  }

  /** The format %04x. */
  function Header(n: nat): (h: seq<byte>)
    ensures |h| >= 4
  {
    var h := Hex(n);
    if |h| >= 4 then h else seq(4 - |h|, _ => ZERO) + h
  }

  /** The number that a text of hexadecimal digits stands for. */
  function HexValue(s: seq<byte>): Option<nat> {
    if s == [] then Some(0)
    else
      var v := HexValue(s[..|s| - 1]);
      if v.None? || !HexDigit(s[|s| - 1]) then None else Some(v.value * 16 + XValue(s[|s| - 1]))
  }

  // ---------- the writer ----------

  /** buffer:overwrite at the start, which does nothing where there is no room. */
  ghost function Overwritten(text: seq<byte>, h: seq<byte>): seq<byte> {
    if |h| <= |text| then h + text[|h|..] else text
  }

  ghost function Chunk(block: seq<byte>): seq<byte> { Overwritten(START + block + CRLF, Header(|block|)) }

  ghost function Chunks(blocks: seq<seq<byte>>): seq<byte> {
    if blocks == [] then [] else Chunk(blocks[0]) + Chunks(blocks[1..])
  }

  /** A response that is written in chunks, its headers being sent. */
  class Connection {
    const status: nat
    const buf: Buffer
    var sent: seq<byte>
    ghost var blocks: seq<seq<byte>>
    ghost var pending: seq<byte>

    ghost predicate Valid()
      reads this, buf, buf.mem
    {
      buf.Valid() && buf.Content() == START + pending && sent == Chunks(blocks)
    }

    constructor (status: nat, minsiz: nat, pagesize: nat, be: bool)
      requires pagesize > 0
      ensures Valid() && fresh(buf) && fresh(buf.mem) && this.status == status && blocks == [] && pending == []
    {
      var b := new Buffer(minsiz, pagesize, be);
      this.status, buf, sent, blocks, pending := status, b, [], [], [];
      new;
      b.Rewind();
      b.Push(START);
    }

    /** The block in the buffer gets its end, and its size at its start. */
    method CloseChunk()
      requires buf.Valid() && buf.Content() == START + pending
      modifies buf, buf.mem
      ensures buf.Valid() && buf.Content() == Chunk(pending) && (buf.mem == old(buf.mem) || fresh(buf.mem))
    {
      buf.Push(CRLF);
      var h := Header(buf.datasiz - 8);
      ghost var text := buf.Content();
      assert text == START + pending + CRLF;
      if |h| <= buf.datasiz {
        buf.Overwrite(0, h);
        assert text[..0] + h + text[|h|..] == h + text[|h|..];
      }
    }

    /** http_write, without compression: what is written goes out once there is enough of it. */
    method Write(data: seq<byte>)
      requires Valid()
      modifies this, buf, buf.mem
      ensures Valid() && (buf.mem == old(buf.mem) || fresh(buf.mem))
      ensures (blocks, pending) == NextBlocks(old(blocks), old(pending), data)
    {
      hide Chunk;
      buf.Push(data);
      pending := pending + data;
      assert buf.Content() == START + pending;
      if buf.datasiz > 8000 {
        SendChunk();
        ChunksMore(blocks, pending);
        blocks, pending := blocks + [pending], [];
        assert START + pending == START;
      }
    }

    method SendChunk()
      requires buf.Valid() && buf.Content() == START + pending
      modifies `sent, buf, buf.mem
      ensures buf.Valid() && buf.Content() == START && (buf.mem == old(buf.mem) || fresh(buf.mem))
      ensures sent == old(sent) + Chunk(pending)
    {
      hide Chunk;
      CloseChunk();
      sent := sent + buf.mem[buf.data..buf.data + buf.datasiz];
      buf.Rewind();
      buf.Push(START);
    }

    /** flush, at the end of the response. */
    method Flush()
      requires Valid()
      modifies this, buf, buf.mem
      ensures sent == old(sent) + if Bodiless(status) then [] else Chunk(old(pending)) + LAST
    {
      if status < 200 || (300 <= status < 400) {
        return;
      }
      if buf.datasiz > 0 {
        CloseChunk();
      }
      buf.Push(LAST);
      sent := sent + buf.mem[buf.data..buf.data + buf.datasiz];
    }
  }

  predicate Bodiless(status: nat) { status < 200 || 300 <= status < 400 }

  /** The blocks that go out, and what is still in the buffer, after one more write. */
  ghost function NextBlocks(blocks: seq<seq<byte>>, pending: seq<byte>, data: seq<byte>): (seq<seq<byte>>, seq<byte>) {
    var p := pending + data;
    if |p| + 6 > 8000 then (blocks + [p], []) else (blocks, p)
  }

  ghost function Blocks(writes: seq<seq<byte>>): (seq<seq<byte>>, seq<byte>) {
    if writes == [] then ([], [])
    else
      var (blocks, pending) := Blocks(writes[..|writes| - 1]);
      NextBlocks(blocks, pending, writes[|writes| - 1])
  }

  lemma {:induction false} ChunksMore(blocks: seq<seq<byte>>, block: seq<byte>)
    ensures Chunks(blocks + [block]) == Chunks(blocks) + Chunk(block)
  {
    hide Chunk;
    if blocks == [] {
      assert [block][1..] == [];
    } else {
      ChunksMore(blocks[1..], block);
      assert (blocks + [block])[1..] == blocks[1..] + [block];
    }
  }

  /** The body of a response made of these writes. */
  method Respond(conn: Connection, writes: seq<seq<byte>>)
    requires conn.Valid() && conn.blocks == [] && conn.pending == []
    modifies conn, conn.buf, conn.buf.mem
    ensures !Bodiless(conn.status) ==> conn.sent == Chunks(Blocks(writes).0) + Chunk(Blocks(writes).1) + LAST
  {
    hide Chunk, Chunks, NextBlocks;
    assert writes[..0] == [];
    for i := 0 to |writes|
      invariant conn.Valid() && (conn.buf.mem == old(conn.buf.mem) || fresh(conn.buf.mem))
      invariant (conn.blocks, conn.pending) == Blocks(writes[..i])
    {
      assert writes[..i + 1][..i] == writes[..i];
      conn.Write(writes[i]);
    }
    assert writes[..|writes|] == writes;
    conn.Flush();
  }

  // ---------- the reader ----------

  datatype Got = Got(content: seq<byte>, rest: seq<byte>, err: int)

  ghost function SkipLine(s: seq<byte>): (r: seq<byte>)
    ensures |r| <= |s|
  {
    var l := FirstLine(s);
    if l.None? then s else s[l.value.1..]
  }

  function Least(x: nat, y: nat): nat { if x < y then x else y }

  /** What the reader makes of the bytes up to the end of the connection, `siz` being what is missing of a chunk
    and 0 between chunks; a read gets at most `max` bytes. */
  ghost function Body(s: seq<byte>, siz: nat, max: nat): Got
    requires max > 0
    decreases |s|
  {
    if siz > 0 then
      if s == [] then Got([], [], 0)
      else
        var k := Least(Least(siz, max), |s|);
        var r := if siz == k then Body(SkipLine(s[k..]), 0, max) else Body(s[k..], siz - k, max);
        Got(s[..k] + r.content, r.rest, r.err)
    else
      var l := FirstLine(s);
      if l.None? then Got([], s, 0)
      else
        var (line, n) := l.value;
        if line == [] then Body(s[n..], 0, max)
        else
          var v := HexValue(line);
          if v.None? then Got([], s[n..], -1)
          else if v.value == 0 then Got([], SkipLine(s[n..]), 0)
          else Body(s[n..], v.value, max)
  }

  /** cd_read of a number of bytes, on a connection that ends after what is in the buffer. */
  method ReadBytes(rbuf: Buffer, bytes: nat, rbufsiz: nat) returns (data: Option<seq<byte>>)
    requires rbuf.Valid() && bytes > 0 && rbufsiz > 0
    modifies rbuf, rbuf.mem
    ensures rbuf.Valid() && rbuf.mem == old(rbuf.mem)
    ensures var s := old(rbuf.Content());
      var k := Least(Least(bytes, rbufsiz), |s|);
      if s == [] then data == None && rbuf.Content() == s else data == Some(s[..k]) && rbuf.Content() == s[k..]
  {
    if rbuf.datasiz == 0 {
      return None;
    }
    var n := Least(Least(bytes, rbufsiz), rbuf.datasiz);
    ghost var s := rbuf.Content();
    data := Some(rbuf.mem[rbuf.data..rbuf.data + n]);
    assert data.value == s[..n];
    rbuf.Shift(n);
  }

  /** cd_read of a line. */
  method ReadLine(rbuf: Buffer) returns (line: Option<seq<byte>>)
    requires rbuf.Valid()
    modifies rbuf, rbuf.mem
    ensures rbuf.Valid() && rbuf.mem == old(rbuf.mem)
    ensures var l := FirstLine(old(rbuf.Content()));
      if l.None? then line == None && rbuf.Content() == old(rbuf.Content())
      else line == Some(l.value.0) && rbuf.Content() == old(rbuf.Content())[l.value.1..]
  {
    hide FirstLine;
    ghost var s := rbuf.Content();
    var lines := rbuf.GetLines(1);
    line := if lines == [] then None else Some(lines[0]);
    if FirstLine(s).Some? {
      assert FirstLines(s[FirstLine(s).value.1..], 0) == ([], s[FirstLine(s).value.1..]);
    }
  }

  /** The chunk loop of response_read_content. */
  method ReadContent(rbuf: Buffer, rbufsiz: nat, buf: Buffer) returns (err: int)
    requires rbuf.Valid() && buf.Valid() && rbufsiz > 0 && rbuf != buf && rbuf.mem != buf.mem
    modifies rbuf, rbuf.mem, buf, buf.mem
    ensures rbuf.Valid() && buf.Valid()
    ensures var got := Body(old(rbuf.Content()), 0, rbufsiz);
      buf.Content() == old(buf.Content()) + got.content && rbuf.Content() == got.rest && err == got.err
  {
    hide Body, FirstLine, HexValue;
    ghost var s, got := buf.Content(), Body(rbuf.Content(), 0, rbufsiz);
    var chunksiz: nat := 0;
    assert s + got.content == buf.Content() + got.content;
    while true
      invariant rbuf.Valid() && buf.Valid() && rbuf.mem != buf.mem
      invariant rbuf.mem == old(rbuf.mem) && (buf.mem == old(buf.mem) || fresh(buf.mem))
      invariant var b := Body(rbuf.Content(), chunksiz, rbufsiz);
        s + got.content == buf.Content() + b.content && got.rest == b.rest && got.err == b.err
      decreases rbuf.datasiz
    {
      var ended := false;
      if chunksiz > 0 {
        ended, chunksiz := ReadData(rbuf, rbufsiz, buf, chunksiz);
        err := 0;
      } else {
        ended, err, chunksiz := ReadSize(rbuf, rbufsiz);
      }
      if ended {
        return;
      }
    }
  }

  /** Bytes of a chunk, and the end of its line behind the last of them. */
  method ReadData(rbuf: Buffer, rbufsiz: nat, buf: Buffer, chunksiz: nat) returns (ended: bool, left: nat)
    requires rbuf.Valid() && buf.Valid() && rbufsiz > 0 && rbuf != buf && rbuf.mem != buf.mem && chunksiz > 0
    modifies rbuf, rbuf.mem, buf, buf.mem
    ensures rbuf.Valid() && buf.Valid() && rbuf.mem == old(rbuf.mem) && (buf.mem == old(buf.mem) || fresh(buf.mem))
    ensures var was := Body(old(rbuf.Content()), chunksiz, rbufsiz);
      if ended then was == Got([], rbuf.Content(), 0) && buf.Content() == old(buf.Content())
      else
        var now := Body(rbuf.Content(), left, rbufsiz);
        old(buf.Content()) + was.content == buf.Content() + now.content && was.rest == now.rest && was.err == now.err
    ensures !ended ==> rbuf.datasiz < old(rbuf.datasiz)
  {
    hide Body, FirstLine;
    ghost var c := rbuf.Content();
    BodyStep(c, chunksiz, rbufsiz);
    left := chunksiz;
    var n := MoveBytes(rbuf, rbufsiz, buf, chunksiz);
    ended := n == 0;
    if !ended {
      left := chunksiz - n;
      if left == 0 {
        SkipTheLine(rbuf);
      }
      ghost var now := Body(rbuf.Content(), left, rbufsiz);
      assert old(buf.Content()) + (c[..n] + now.content) == buf.Content() + now.content;
    }
  }

  method MoveBytes(rbuf: Buffer, rbufsiz: nat, buf: Buffer, chunksiz: nat) returns (n: nat)
    requires rbuf.Valid() && buf.Valid() && rbufsiz > 0 && rbuf != buf && rbuf.mem != buf.mem && chunksiz > 0
    modifies rbuf, rbuf.mem, buf, buf.mem
    ensures rbuf.Valid() && buf.Valid() && rbuf.mem == old(rbuf.mem) && (buf.mem == old(buf.mem) || fresh(buf.mem))
    ensures var s := old(rbuf.Content());
      n == Least(Least(chunksiz, rbufsiz), |s|) && rbuf.Content() == s[n..] && buf.Content() == old(buf.Content()) + s[..n]
  {
    n := 0;
    var ret := ReadBytes(rbuf, chunksiz, rbufsiz);
    if ret.Some? {
      n := |ret.value|;
      buf.Push(ret.value);
    }
  }

  method SkipTheLine(rbuf: Buffer)
    requires rbuf.Valid()
    modifies rbuf, rbuf.mem
    ensures rbuf.Valid() && rbuf.mem == old(rbuf.mem) && rbuf.Content() == SkipLine(old(rbuf.Content()))
  {
    var _ := ReadLine(rbuf);
  }

  /** The line before a chunk. */
  method ReadSize(rbuf: Buffer, rbufsiz: nat) returns (ended: bool, err: int, chunksiz: nat)
    requires rbuf.Valid() && rbufsiz > 0
    modifies rbuf, rbuf.mem
    ensures rbuf.Valid() && rbuf.mem == old(rbuf.mem)
    ensures Body(old(rbuf.Content()), 0, rbufsiz) == if ended then Got([], rbuf.Content(), err) else Body(rbuf.Content(), chunksiz, rbufsiz)
    ensures !ended ==> rbuf.datasiz < old(rbuf.datasiz)
  {
    hide Body, FirstLine, HexValue;
    BodyStep(rbuf.Content(), 0, rbufsiz);
    ended, err, chunksiz := true, 0, 0;
    var ret := ReadLine(rbuf);
    if ret.None? {
      return;
    }
    if |ret.value| > 0 {
      var v := HexValue(ret.value);
      if v.None? {
        err := -1;
        return;
      } else if v.value == 0 {
        SkipTheLine(rbuf);
        return;
      }
      chunksiz := v.value;
    }
    ended := false;
  }

  /** One turn of the loop. */
  lemma BodyStep(s: seq<byte>, siz: nat, max: nat)
    requires max > 0
    ensures siz > 0 && s == [] ==> Body(s, siz, max) == Got([], [], 0)
    ensures siz > 0 && s != [] ==>
      var k := Least(Least(siz, max), |s|);
      var r := if siz == k then Body(SkipLine(s[k..]), 0, max) else Body(s[k..], siz - k, max);
      Body(s, siz, max) == Got(s[..k] + r.content, r.rest, r.err)
    ensures siz == 0 && FirstLine(s).None? ==> Body(s, siz, max) == Got([], s, 0)
    ensures siz == 0 && FirstLine(s).Some? ==>
      var (line, n) := FirstLine(s).value;
      Body(s, siz, max) ==
        if line == [] then Body(s[n..], 0, max)
        else if HexValue(line).None? then Got([], s[n..], -1)
        else if HexValue(line).value == 0 then Got([], SkipLine(s[n..]), 0)
        else Body(s[n..], HexValue(line).value, max)
  {
  }

  // ---------- what the reader gets is what was written ----------

  lemma {:induction false} HexValueOf(n: nat)
    ensures HexValue(Hex(n)) == Some(n) && (forall c <- Hex(n) :: HexDigit(c))
  {
    if n >= 16 {
      HexValueOf(n / 16);
      assert Hex(n)[..|Hex(n)| - 1] == Hex(n / 16);
    } else {
      assert [Digit(n)][..0] == [];
    }
  }

  lemma {:induction false} HexPadded(k: nat, s: seq<byte>)
    ensures HexValue(seq(k, _ => ZERO) + s) == HexValue(s)
  {
    var t := seq(k, _ => ZERO) + s;
    if s != [] {
      assert t[..|t| - 1] == seq(k, _ => ZERO) + s[..|s| - 1];
      HexPadded(k, s[..|s| - 1]);
    } else if k > 0 {
      assert t[..|t| - 1] == seq(k - 1, _ => ZERO) + s;
      HexPadded(k - 1, s);
    }
  }

  lemma {:induction false} HexSize(n: nat, k: nat, bound: nat)
    requires k > 0 && bound == Power16(k) && n < bound
    ensures |Hex(n)| <= k
  {
    if n >= 16 {
      HexSize(n / 16, k - 1, Power16(k - 1));
    }
  }

  ghost function Power16(k: nat): nat { if k == 0 then 1 else 16 * Power16(k - 1) }

  /** A size of at most five digits leaves the LF behind it in place. */
  lemma HeaderIs(n: nat)
    requires n < 0x100000
    ensures HexValue(Header(n)) == Some(n) && 4 <= |Header(n)| <= 5 && forall c <- Header(n) :: HexDigit(c)
  {
    assert Power16(5) == 0x100000;
    HexSize(n, 5, 0x100000);
    HexValueOf(n);
    HexPadded(4 - Least(4, |Hex(n)|), Hex(n));
  }

  /** The line that a chunk starts with. */
  lemma ChunkLine(block: seq<byte>, rest: seq<byte>)
    requires |block| < 0x100000
    ensures var n := 6;
      FirstLine(Chunk(block) + rest) == Some((Header(|block|), n)) && (Chunk(block) + rest)[n..] == block + (CRLF + rest)
  {
    hide FirstLine, Header, Chunk, Plainly, Stripped;
    var h := Header(|block|);
    HeaderIs(|block|);
    var seg := if |h| == 4 then h + [CR] else h;
    DigitsOnly(h);
    ChunkShape(block);
    var s := Chunk(block) + rest;
    assert s == seg + [LF] + (block + (CRLF + rest));
    assert s[6..] == block + (CRLF + rest);
    SegmentFirst(seg, block + (CRLF + rest));
  }

  lemma ChunkShape(block: seq<byte>)
    requires 4 <= |Header(|block|)| <= 5
    ensures var h := Header(|block|);
      Chunk(block) == (if |h| == 4 then h + [CR] else h) + [LF] + block + CRLF
  {
    hide Header;
  }

  lemma DigitsOnly(h: seq<byte>)
    requires h != [] && forall c <- h :: HexDigit(c)
    ensures Plainly(h) && Plainly(h + [CR]) && Stripped(h) == h && Stripped(h + [CR]) == h
  {
    assert h[0] in h && h[|h| - 1] in h;
  }

  /** The bytes of a chunk, however many a read gets. */
  lemma {:induction false} DataRead(block: seq<byte>, rest: seq<byte>, max: nat)
    requires block != [] && max > 0
    ensures var r := Body(SkipLine(rest), 0, max);
      Body(block + rest, |block|, max) == Got(block + r.content, r.rest, r.err)
    decreases |block|
  {
    hide Body, SkipLine;
    BodyStep(block + rest, |block|, max);
    var k := Least(|block|, max);
    assert (block + rest)[..k] == block[..k] && (block + rest)[k..] == block[k..] + rest;
    if k < |block| {
      DataRead(block[k..], rest, max);
      assert block[..k] + block[k..] == block;
    } else {
      assert block[k..] + rest == rest && block[..k] == block;
    }
  }

  lemma CrLfSkipped(rest: seq<byte>)
    ensures SkipLine(CRLF + rest) == rest
  {
    assert CRLF + rest == [CR] + [LF] + rest;
    SegmentFirst([CR], rest);
  }

  lemma ChunkRead(block: seq<byte>, rest: seq<byte>, max: nat)
    requires |block| < 0x100000 && max > 0
    ensures var r := Body(rest, 0, max);
      Body(Chunk(block) + rest, 0, max) == if block == [] then Got([], rest, 0) else Got(block + r.content, r.rest, r.err)
  {
    hide Body, Chunk, FirstLine, SkipLine, Header, HexValue;
    ChunkLine(block, rest);
    HeaderIs(|block|);
    BodyStep(Chunk(block) + rest, 0, max);
    CrLfSkipped(rest);
    if block != [] {
      DataRead(block, CRLF + rest, max);
    } else {
      assert block + (CRLF + rest) == CRLF + rest;
    }
  }

  lemma LastRead(rest: seq<byte>, max: nat)
    requires max > 0
    ensures Body(LAST + rest, 0, max) == Got([], rest, 0)
  {
    hide Body, FirstLine, SkipLine, Stripped;
    assert LAST + rest == [ZERO, CR] + [LF] + (CRLF + rest);
    SegmentFirst([ZERO, CR], CRLF + rest);
    OneZero();
    assert (LAST + rest)[3..] == CRLF + rest;
    CrLfSkipped(rest);
    BodyStep(LAST + rest, 0, max);
  }

  lemma OneZero()
    ensures Stripped([ZERO, CR]) == [ZERO] && HexValue([ZERO]) == Some(0)
  {
    assert [ZERO][..0] == [];
  }

  ghost function Flat(blocks: seq<seq<byte>>): seq<byte> {
    if blocks == [] then [] else blocks[0] + Flat(blocks[1..])
  }

  lemma {:induction false} ChunksRead(blocks: seq<seq<byte>>, rest: seq<byte>, max: nat)
    requires max > 0 && forall b <- blocks :: 0 < |b| < 0x100000
    ensures var r := Body(rest, 0, max);
      Body(Chunks(blocks) + rest, 0, max) == Got(Flat(blocks) + r.content, r.rest, r.err)
  {
    hide Body, Chunk;
    if blocks == [] {
      assert [] + rest == rest;
    } else {
      assert Chunks(blocks) + rest == Chunk(blocks[0]) + (Chunks(blocks[1..]) + rest);
      assert blocks[0] in blocks;
      ChunkRead(blocks[0], Chunks(blocks[1..]) + rest, max);
      ChunksRead(blocks[1..], rest, max);
    }
  }

  /** No byte is lost between the writes and the blocks, and a block goes out once it has more than 8000 bytes with the
    room for its size. */
  lemma {:induction false} BlocksAreWrites(writes: seq<seq<byte>>)
    ensures var (blocks, pending) := Blocks(writes);
      Flat(blocks) + pending == Flat(writes) && |pending| + 6 <= 8000 && forall b <- blocks :: |b| + 6 > 8000
  {
    if writes != [] {
      var n := |writes| - 1;
      var (blocks, pending) := Blocks(writes[..n]);
      BlocksAreWrites(writes[..n]);
      FlatMore(writes[..n], writes[n]);
      assert writes[..n] + [writes[n]] == writes;
      FlatMore(blocks, pending + writes[n]);
    }
  }

  lemma {:induction false} FlatMore(blocks: seq<seq<byte>>, block: seq<byte>)
    ensures Flat(blocks + [block]) == Flat(blocks) + block
  {
    if blocks == [] {
      assert [block][1..] == [];
    } else {
      FlatMore(blocks[1..], block);
      assert (blocks + [block])[1..] == blocks[1..] + [block];
    }
  }

  /** The reader gets the bytes of all the writes, however many a read gets at a time, where no block has
    more than five hexadecimal digits for a size; if the last block was empty it has already taken its
    chunk for the end, and the terminator is left unread. */
  lemma ChunkedRoundTrip(writes: seq<seq<byte>>, rest: seq<byte>, max: nat)
    requires max > 0
    requires var (blocks, pending) := Blocks(writes); |pending| < 0x100000 && forall b <- blocks :: |b| < 0x100000
    ensures var (blocks, pending) := Blocks(writes);
      Body(Chunks(blocks) + Chunk(pending) + LAST + rest, 0, max)
      == Got(Flat(writes), if pending == [] then LAST + rest else rest, 0)
  {
    hide Body, Chunk, Chunks, Blocks, Flat;
    var (blocks, pending) := Blocks(writes);
    BlocksAreWrites(writes);
    assert Chunks(blocks) + Chunk(pending) + LAST + rest == Chunks(blocks) + (Chunk(pending) + (LAST + rest));
    ChunksRead(blocks, Chunk(pending) + (LAST + rest), max);
    ChunkRead(pending, LAST + rest, max);
    LastRead(rest, max);
  }

  /** Below 65536 bytes it is a chunk as section 7.1 of RFC 9112 has it: the size as four digits to the base 16,
    most significant first, CR LF, the bytes, CR LF. */
  lemma ChunkIsRfc9112(block: seq<byte>)
    requires |block| < 0x10000
    ensures |Lower()| == 16
    ensures var n, d := |block|, Lower();
      Chunk(block) == [Digit(n / 0x1000), Digit(n / 0x100 % 0x10), Digit(n / 0x10 % 0x10), Digit(n % 0x10), 13, 10] + block + [13, 10]
    ensures forall i: nat :: i < 16 ==> Digit(i) == Lower()[i]
  {
    hide Digit, Hex, Chunk;
    forall i: nat | i < 16 ensures |Lower()| == 16 && Digit(i) == Lower()[i] {
      HexDigits(i);
    }
    HexDigits(0);
    FourDigits(|block|);
    hide Header;
    ChunkShape(block);
  }

  lemma FourDigits(n: nat)
    requires n < 0x10000
    ensures Header(n) == [Digit(n / 0x1000), Digit(n / 0x100 % 0x10), Digit(n / 0x10 % 0x10), Digit(n % 0x10)]
  {
    var a := n / 16;
    var b := a / 16;
    var c := b / 16;
    assert b == n / 0x100 && c == n / 0x1000 && c < 16;
    assert Digit(0) == ZERO;
    if n < 16 {
      assert Hex(n) == [Digit(n)];
    } else if a < 16 {
      assert Hex(n) == Hex(a) + [Digit(n % 16)] && Hex(a) == [Digit(a)];
    } else if b < 16 {
      assert Hex(n) == Hex(a) + [Digit(n % 16)] && Hex(a) == Hex(b) + [Digit(a % 16)] && Hex(b) == [Digit(b)];
    } else {
      assert Hex(n) == Hex(a) + [Digit(n % 16)] && Hex(a) == Hex(b) + [Digit(a % 16)] && Hex(b) == Hex(c) + [Digit(b % 16)] && Hex(c) == [Digit(c)];
    }
  }

  /** A size of more digits covers the LF as well, and the line goes on to the first LF of the block.  The block
    comes back all the same only if it repeats itself, with the text behind it for its end: what the line takes
    from it has to be made up for by as much of that text. */
  ghost predicate Repeating(block: seq<byte>)
    requires 6 <= |Hex(|block|)| <= |block|
  {
    var k := |Hex(|block|)| - 6;
    var j := Newline(block[k..]);
    j.Some? &&
    var p := k + j.value + 1;
    var more := Stripped(block[k..p - 1]);
    (forall c <- more :: HexDigit(c)) && p <= 7 && (more == [] || p == 7) && block == (block[p..] + ENDING)[..|block|]
  }

  const ENDING: seq<byte> := CRLF + LAST

  /** For a response of one block the reader gets the block if and only if its size has at most five digits, or
    it is one of those. */
  lemma BlockLimit(block: seq<byte>, max: nat)
    requires max > 0
    ensures |block| >= 0x100000 ==> 6 <= |Hex(|block|)| <= |block|
    ensures Body(Chunk(block) + LAST, 0, max).content == block <==> |block| < 0x100000 || Repeating(block)
  {
    hide Body, Chunk, Hex, Repeating;
    assert LAST + [] == LAST;
    if |block| < 0x100000 {
      ChunkRead(block, LAST, max);
      LastRead([], max);
    } else {
      HexLong(|block|);
      LongBlock(block, max);
    }
  }

  /** There are such blocks: nothing but line ends, with a size of six digits. */
  lemma LineEndsRepeat(block: seq<byte>)
    requires |Hex(|block|)| == 6 && |block| >= 0x100000 && |block| % 2 == 0
    requires forall i :: 0 <= i < |block| ==> block[i] == if i % 2 == 0 then CR else LF
    ensures Repeating(block)
  {
    hide Hex;
    assert block[0..] == block && block[0..1] == [CR];
    assert block == [CR] + [LF] + block[2..];
    NewlineAt([CR], block[2..]);
    var n, more := |block|, block[2..] + ENDING;
    assert ENDING[0] == CR && ENDING[1] == LF;
    forall i | 0 <= i < n ensures more[i] == block[i] {
      if i < n - 2 {
        assert more[i] == block[2..][i] == block[i + 2];
      } else {
        assert more[i] == ENDING[i - (n - 2)];
      }
    }
    assert more[..n] == block;
  }

  lemma LongBlock(block: seq<byte>, max: nat)
    requires max > 0 && 6 <= |Hex(|block|)| <= |block|
    ensures Body(Chunk(block) + LAST, 0, max).content == block <==> Repeating(block)
  {
    hide Body, Chunk, FirstLine, Hex, Newline, Stripped, HexValue, Header;
    var h, k := Header(|block|), |Hex(|block|)| - 6;
    var tail := block[k..];
    LongChunk(block);
    assert Chunk(block) + LAST == h + tail + ENDING;
    NewlineFirst(tail);
    var j := Newline(tail);
    if j.None? {
      NoLine(block, max);
    } else {
      LineTaken(block, j.value, max);
    }
  }

  /** The line ends at the LF that is `j` bytes behind the covered text. */
  lemma LineTaken(block: seq<byte>, j: nat, max: nat)
    requires max > 0 && 6 <= |Hex(|block|)| <= |block| && Newline(block[|Hex(|block|)| - 6..]) == Some(j) && LF !in block[|Hex(|block|)| - 6..][..j]
    ensures Body(Header(|block|) + block[|Hex(|block|)| - 6..] + ENDING, 0, max).content == block <==> Repeating(block)
  {
    hide Body, FirstLine, Hex, Newline, Stripped, HexValue;
    var h, k := Header(|block|), |Hex(|block|)| - 6;
    var tail := block[k..];
    var seg, rest := tail[..j], tail[j + 1..] + ENDING;
    assert h + tail + ENDING == h + seg + [LF] + rest;
    assert rest == block[k + j + 1..] + ENDING && seg == block[k..k + j];
    SizeLine(block, seg, rest, max);
    LongRead(block, rest, Stripped(seg), k + j + 1, max);
  }

  lemma LongChunk(block: seq<byte>)
    requires 6 <= |Hex(|block|)| <= |block|
    ensures Header(|block|) == Hex(|block|) && Chunk(block) == Hex(|block|) + block[|Hex(|block|)| - 6..] + CRLF
  {
    hide Hex;
    var k := |Hex(|block|)| - 6;
    assert START + block + CRLF == START + block[..k] + (block[k..] + CRLF);
  }

  /** Without a LF the line is all of the block. */
  lemma NoLine(block: seq<byte>, max: nat)
    requires max > 0 && 6 <= |Hex(|block|)| <= |block| && LF !in block[|Hex(|block|)| - 6..]
    ensures |Body(Chunk(block) + LAST, 0, max).content| < |block|
  {
    hide Body, Chunk, Hex, HexValue, Stripped;
    var h, tail := Header(|block|), block[|Hex(|block|)| - 6..];
    LongChunk(block);
    assert Chunk(block) + LAST == h + (tail + [CR]) + [LF] + LAST;
    SizeLine(block, tail + [CR], LAST, max);
    ContentFits(LAST, if HexValue(h + Stripped(tail + [CR])).Some? then HexValue(h + Stripped(tail + [CR])).value else 0, max);
  }

  /** The line that starts with the digits of the size. */
  lemma SizeLine(block: seq<byte>, seg: seq<byte>, rest: seq<byte>, max: nat)
    requires max > 0 && 6 <= |Hex(|block|)| && LF !in seg
    ensures var v := HexValue(Header(|block|) + Stripped(seg));
      Body(Header(|block|) + seg + [LF] + rest, 0, max) ==
        if v.None? then Got([], rest, -1) else if v.value == 0 then Got([], SkipLine(rest), 0) else Body(rest, v.value, max)
  {
    hide Body, FirstLine, Hex, HexValue;
    var h := Header(|block|);
    HexValueOf(|block|);
    assert h[0] in h && h[|h| - 1] in h;
    assert Stripped(h + seg) == h + Stripped(seg);
    var s := h + seg + [LF] + rest;
    SegmentFirst(h + seg, rest);
    BodyStep(s, 0, max);
    assert s[|h + seg| + 1..] == rest;
  }

  /** The block behind that line, of which `p` bytes are gone. */
  lemma LongRead(block: seq<byte>, rest: seq<byte>, more: seq<byte>, p: nat, max: nat)
    requires max > 0 && p <= |block| && rest == block[p..] + ENDING && 6 <= |Hex(|block|)| <= |block|
    ensures var v := HexValue(Header(|block|) + more);
      var content := if v.None? || v.value == 0 then [] else Body(rest, v.value, max).content;
      content == block <==>
        (forall c <- more :: HexDigit(c)) && p <= 7 && (more == [] || p == 7) && block == (block[p..] + ENDING)[..|block|]
  {
    hide Body, Hex, HexValue;
    var n := |block|;
    HexValueOf(n);
    HexMore(Hex(n), n, more);
    if (forall c <- more :: HexDigit(c)) {
      var v := HexValue(Hex(n) + more).value;
      if more == [] && p <= 7 {
        DataRead(rest[..n], rest[n..], max);
        assert rest == rest[..n] + rest[n..] && rest[n..] == ENDING[p..];
        EndingRead(p, max);
        assert rest[..n] + [] == rest[..n];
      } else {
        AllRead(rest, v, max);
        assert p == 7 ==> rest == rest[..n];
      }
    }
  }

  /** Digits behind a number multiply it. */
  lemma {:induction false} HexMore(h: seq<byte>, n: nat, more: seq<byte>)
    requires HexValue(h) == Some(n)
    ensures HexValue(h + more).Some? <==> forall c <- more :: HexDigit(c)
    ensures HexValue(h + more).Some? ==> if more == [] then HexValue(h + more).value == n else HexValue(h + more).value >= 16 * n
  {
    if more == [] {
      assert h + more == h;
    } else {
      var m := |more| - 1;
      assert (h + more)[..|h + more| - 1] == h + more[..m];
      HexMore(h, n, more[..m]);
      assert more == more[..m] + [more[m]];
    }
  }

  /** A chunk that is larger than what there is. */
  lemma {:induction false} AllRead(s: seq<byte>, siz: nat, max: nat)
    requires max > 0 && siz > |s|
    ensures Body(s, siz, max) == Got(s, [], 0)
    decreases |s|
  {
    hide Body;
    BodyStep(s, siz, max);
    if s != [] {
      var k := Least(Least(siz, max), |s|);
      AllRead(s[k..], siz - k, max);
      assert s[..k] + s[k..] == s;
    }
  }

  /** In what is left of the text behind the block there is nothing but ends. */
  lemma EndingRead(p: nat, max: nat)
    requires p <= 7 && max > 0
    ensures Body(SkipLine(ENDING[p..]), 0, max).content == []
  {
    hide Body;
    if p <= 1 {
      assert ENDING[p..] == ENDING[p..1] + [LF] + LAST;
      SegmentFirst(ENDING[p..1], LAST);
      assert LAST + [] == LAST;
      LastRead([], max);
    } else if p <= 4 {
      assert ENDING[p..] == ENDING[p..4] + [LF] + CRLF;
      SegmentFirst(ENDING[p..4], CRLF);
      EmptyLine(max);
    } else {
      assert ENDING[p..] == ENDING[p..];
      if p < 7 {
        assert ENDING[p..] == ENDING[p..6] + [LF] + [];
        SegmentFirst(ENDING[p..6], []);
      }
      NoLines(max);
    }
  }

  lemma HexLong(n: nat)
    requires n >= 0x100000
    ensures 6 <= |Hex(n)| <= n
  {
    hide Hex;
    var a := n / 16;
    var b := a / 16;
    var c := b / 16;
    var d := c / 16;
    HexNext(n);
    HexNext(a);
    HexNext(b);
    HexNext(c);
    HexNext(d);
    HexShort(d / 16);
  }

  lemma HexNext(n: nat)
    requires n >= 16
    ensures |Hex(n)| == |Hex(n / 16)| + 1
  {
  }

  lemma {:induction false} HexShort(n: nat)
    ensures |Hex(n)| <= n + 1
  {
    if n >= 16 {
      HexShort(n / 16);
    }
  }

  lemma EmptyLine(max: nat)
    requires max > 0
    ensures Body(CRLF, 0, max).content == []
  {
    hide Body, FirstLine;
    assert CRLF == [CR] + [LF] + [];
    SegmentFirst([CR], []);
    BodyStep(CRLF, 0, max);
    NoLines(max);
  }

  lemma NoLines(max: nat)
    requires max > 0
    ensures Body([], 0, max).content == [] && SkipLine([]) == []
  {
  }

  lemma {:induction false} ContentFits(s: seq<byte>, siz: nat, max: nat)
    requires max > 0
    ensures |Body(s, siz, max).content| + |Body(s, siz, max).rest| <= |s|
    decreases |s|
  {
    hide FirstLine, HexValue, SkipLine;
    if siz > 0 {
      if s != [] {
        var k := Least(Least(siz, max), |s|);
        if siz == k { ContentFits(SkipLine(s[k..]), 0, max); } else { ContentFits(s[k..], siz - k, max); }
      }
    } else if FirstLine(s).Some? {
      var (line, n) := FirstLine(s).value;
      if line == [] {
        ContentFits(s[n..], 0, max);
      } else if HexValue(line).Some? && HexValue(line).value > 0 {
        ContentFits(s[n..], HexValue(line).value, max);
      }
    }
  }
}
