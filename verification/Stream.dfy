/** The reading half of the stream channel of stream.lua, between the kernel, which brings what it likes,
  and one task at a time that reads lines or bytes. */
module Streams {
  import opened Tasks
  import opened Buffers
  import opened BufferTheorems

  /** CH_CLOSED to CH_READABLE. */
  datatype Phase = Closed | Errored | HalfClosed | Established | Readable

  datatype Request = WantLine | Want(n: nat) | WantAll(n: nat)

  /** What a read returns, or that it blocks, or that another task is reading already. */
  datatype Outcome = Data(bytes: seq<byte>) | Text(line: seq<byte>) | End | Failed | TimedOut | Blocked | Raised

  /** What a read has returned, with the bytes it has used up. */
  datatype Item = Block(raw: seq<byte>) | TextLine(raw: seq<byte>, text: seq<byte>)

  ghost predicate ItemOk(i: Item) { i.TextLine? ==> FirstLine(i.raw) == Some((i.text, |i.raw|)) }

  ghost function Raws(items: seq<Item>): seq<byte> {
    if items == [] then [] else Raws(items[..|items| - 1]) + items[|items| - 1].raw
  }

  ghost function Returned(i: Item): Outcome { if i.Block? then Data(i.raw) else Text(i.text) }

  /** One more item was returned, or none. */
  ghost predicate Told(before: seq<Item>, after: seq<Item>, out: Outcome) {
    if out.Data? || out.Text? then |after| == |before| + 1 && after[..|before|] == before && Returned(after[|before|]) == out
    else after == before
  }

  /** What a read may return to a request, with `left` still unread: just the bytes it asked for, or at least as many
    and all there are; fewer only when the connection has ended, and then all there are; nothing only when it has
    ended and there is nothing.  It waits only for what is not there. */
  ghost predicate Fits(req: Request, out: Outcome, left: seq<byte>, ended: bool) {
    match out
    case Data(bytes) =>
      (match req
       case WantLine => false
       case Want(n) => |bytes| == n || (ended && 0 < |bytes| < n && left == [])
       case WantAll(n) => left == [] && (|bytes| >= n || (ended && bytes != [])))
    case Text(_) => req.WantLine?
    case End => ended && if req.WantLine? then FirstLine(left).None? else left == []
    case Failed => true
    case TimedOut => !ended && Lacks(req, left)
    case Blocked => !ended && Lacks(req, left)
    case Raised => true
  }

  ghost predicate Lacks(req: Request, left: seq<byte>) {
    match req
    case WantLine => FirstLine(left).None?
    case Want(n) => |left| < n
    case WantAll(n) => |left| < n
  }

  lemma Waits(req: Request, left: seq<byte>, ended: bool)
    ensures Lacks(req, left) && !ended ==> Fits(req, TimedOut, left, ended) && Fits(req, Blocked, left, ended)
    ensures Fits(req, Failed, left, ended)
  {
  }

  lemma NothingTold(items: seq<Item>)
    ensures Told(items, items, TimedOut) && Told(items, items, Blocked) && Told(items, items, Failed)
  {
  }

  /** What a read notes down of its request while it waits. */
  function Noted(r: Request): int {
    match r
    case WantLine => -1
    case Want(n) => n
    case WantAll(n) => n
  }

  class StreamChannel {
    const rbufsiz: nat
    const rbuf: Buffer
    var phase: Phase
    var nshift: nat
    var rreqsiz: int
    var rtask: bool               // ch_rtask
    var woken: bool               // it is in the ready list
    var request: Request          // what it asked for
    var line: Option<seq<byte>>   // ch_line
    ghost var held: seq<byte>     // the bytes that the line was made of
    ghost var received: seq<byte>
    ghost var delivered: seq<Item>

    ghost predicate Bad()
      reads this
    {
      phase.Closed? || phase.Errored?
    }

    /** No byte is lost, repeated or overtaken; on a channel that is closed or in error there may be bytes
      that nobody will get. */
    ghost predicate Accounts()
      requires rbuf.Valid() && nshift <= rbuf.datasiz
      reads this, rbuf, rbuf.mem
    {
      && Raws(delivered) + held <= received
      && (!Bad() ==> received == Raws(delivered) + held + rbuf.Content()[nshift..])
      && (forall i :: i in delivered ==> ItemOk(i))
      && (if line.None? then held == [] else ItemOk(TextLine(held, line.value)))
    }

    /** There is something to return. */
    ghost predicate Ready(r: Request)
      reads `phase, `line, rbuf
    {
      phase.HalfClosed? || (if r.WantLine? then line.Some? else rbuf.datasiz >= Noted(r))
    }

    ghost function Unread(): seq<byte>
      requires rbuf.Valid() && nshift <= rbuf.datasiz
      reads `nshift, rbuf, rbuf.mem
    {
      rbuf.Content()[nshift..]
    }

    ghost predicate Sound()
      reads this, rbuf, rbuf.mem
    {
      rbuf.Valid() && nshift <= rbuf.datasiz <= rbufsiz && Accounts()
    }

    /** A task that waits, and whether it was woken; then a line may be held for it. */
    ghost predicate Waiting()
      reads `phase, `nshift, `rreqsiz, `rtask, `woken, `request, `line, rbuf
    {
      if rtask then
        nshift == 0 && rreqsiz == Noted(request) && rreqsiz != 0 && (woken ==> Ready(request))
        && (line.Some? ==> woken && request.WantLine?)
      else line.None? && !woken
    }

    ghost predicate Valid()
      reads this, rbuf, rbuf.mem
    {
      Sound() && (!Bad() ==> Waiting())
    }

    constructor (rbufsiz: nat, pagesize: nat)
      requires pagesize > 0
      ensures Valid() && fresh(rbuf) && fresh(rbuf.mem) && delivered == [] && received == [] && !rtask && this.rbufsiz == rbufsiz
    {
      this.rbufsiz := rbufsiz;
      rbuf := new Buffer(rbufsiz, pagesize, true);
      phase, nshift, rreqsiz, rtask, woken, request, line := Established, 0, 0, false, false, WantLine, None;
      held, received, delivered := [], [], [];
    }

    /** os.readb: the kernel brings as much as it likes, or says that there is no more, or an error. */
    static method Readb(siz: nat) returns (data: seq<byte>, err: bool)
      ensures |data| <= siz && (err ==> data == [])
    {
      var bytes: seq<byte>, fault: bool := *, *;
      data := if |bytes| <= siz then bytes else [];
      err := data == [] && fault;
    }

    /** stream_channel_read. */
    method ReadSome() returns (updated: bool)
      requires Sound() && !Bad()
      modifies `phase, `nshift, `rreqsiz, `received, rbuf, rbuf.mem
      ensures Sound() && !phase.Closed?
      ensures old(rbuf.Content()) <= rbuf.Content() && old(received) <= received && (rbuf.mem == old(rbuf.mem) || fresh(rbuf.mem))
      ensures updated <==> old(rbuf.datasiz) < rbufsiz
      ensures updated ==> phase.HalfClosed? || phase.Errored? || old(rbuf.datasiz) < rbuf.datasiz
      ensures !updated ==> phase == old(phase) && rbuf.datasiz == old(rbuf.datasiz)
      ensures !phase.Errored? ==> nshift == old(nshift) && rreqsiz == old(rreqsiz)
    {
      hide Accounts;
      updated := rbuf.datasiz < rbufsiz;
      if updated {
        var siz := rbufsiz - rbuf.datasiz;
        var data, err := Readb(siz);
        Receive(data);
        if |data| > 0 {
          var more: bool := *;
          TurnTo(if |data| == siz && more then Readable else Established);
        } else if !err {
          TurnTo(HalfClosed);
        } else {
          Break();
        }
      }
    }

    method TurnTo(p: Phase)
      requires Sound() && !Bad() && !p.Closed? && !p.Errored?
      modifies `phase
      ensures Sound() && phase == p
    {
      phase := p;
    }

    method Break()
      requires Sound()
      modifies `phase, `nshift, `rreqsiz
      ensures Sound() && phase == Errored
    {
      rreqsiz, nshift, phase := 0, 0, Errored;
    }

    method Receive(data: seq<byte>)
      requires rbuf.Valid() && nshift <= rbuf.datasiz && Accounts() && !Bad()
      modifies `received, rbuf, rbuf.mem
      ensures rbuf.Valid() && nshift <= rbuf.datasiz && Accounts() && (rbuf.mem == old(rbuf.mem) || fresh(rbuf.mem))
      ensures rbuf.Content() == old(rbuf.Content()) + data && received == old(received) + data
    {
      hide Raws, ItemOk;
      ghost var c := rbuf.Content();
      rbuf.Push(data);
      received := received + data;
      assert (c + data)[nshift..] == c[nshift..] + data;
    }

    /** The handler for events on a connection that is open or half-closed.  The event loop resumes the tasks
      that an event has woken before it comes to the next one. */
    method OnEvent(hup: bool)
      requires Valid() && !woken
      modifies this, rbuf, rbuf.mem
      ensures Valid() && delivered == old(delivered) && old(received) <= received && rtask == old(rtask) && request == old(request)
      ensures rbuf.mem == old(rbuf.mem) || fresh(rbuf.mem)
      ensures old(!Bad() && rtask && rbuf.datasiz < rbufsiz) && !woken ==> !phase.HalfClosed? && !Bad() && Lacks(request, Unread())
    {
      hide Accounts;
      if phase.Closed? || phase.Errored? {
        return;
      }
      var updated := ReadSome();
      if hup && (phase.Established? || phase.Readable?) {
        TurnTo(HalfClosed);
        updated := true;
      }
      if updated && rtask {
        if phase.Errored? || phase.HalfClosed? {
          Wake();
        } else if rreqsiz > 0 {
          if rbuf.datasiz >= rreqsiz {
            Wake();
          }
        } else {
          Hold();
          if line.Some? {
            Wake();
          }
        }
      }
    }

    method Wake()
      requires Sound()
      modifies `woken
      ensures Sound() && woken
    {
      woken := true;
    }

    /** The first line, if there is one, is taken off the buffer and held for the task. */
    method Hold()
      requires Sound() && nshift == 0 && !Bad() && line.None?
      modifies `line, `held, rbuf, rbuf.mem
      ensures Sound() && rbuf.mem == old(rbuf.mem)
      ensures line.None? ==> rbuf.Content() == old(rbuf.Content()) && FirstLine(rbuf.Content()).None?
    {
      hide Raws;
      ghost var c := rbuf.Content();
      var lines := rbuf.GetLines(1);
      OneLine(c);
      if lines != [] {
        line := Some(lines[0]);
        ghost var n := FirstLine(c).value.1;
        held := c[..n];
        LineAlone(c);
        assert Raws(delivered) + held + c[n..] == Raws(delivered) + c;
      }
    }

    /** stream_channel:read, up to where it blocks or returns; `patient` if there is time left to wait. */
    method Read(req: Request, patient: bool) returns (out: Outcome)
      requires Valid()
      modifies this, rbuf, rbuf.mem
      ensures Valid() && old(received) <= received && (rbuf.mem == old(rbuf.mem) || fresh(rbuf.mem))
      ensures Told(old(delivered), delivered, out)
      ensures out.Raised? <==> old(rtask && !phase.Closed?)
      ensures out.Blocked? ==> rtask && !woken
      ensures old(Bad() && !rtask) ==> out.Failed?
      ensures var r := if req.Want? && req.n > rbufsiz then Want(rbufsiz) else req;
        Fits(r, out, Unread(), phase.HalfClosed?) && (out.Blocked? ==> request == r)
    {
      hide Accounts;
      if phase.Closed? {
        return Failed;
      }
      if rtask {
        return Raised;
      }
      if phase.Errored? {
        return Failed;
      }
      var r := if req.Want? && req.n > rbufsiz then Want(rbufsiz) else req;
      Forget();
      out := Attempt(r, patient);
    }

    /** The bytes that the last read returned are dropped only now. */
    method Forget()
      requires Sound() && !Bad()
      modifies `nshift, rbuf, rbuf.mem
      ensures Sound() && nshift == 0 && rbuf.mem == old(rbuf.mem)
    {
      hide Raws, ItemOk;
      if nshift > 0 {
        rbuf.Shift(nshift);
        nshift := 0;
        assert rbuf.Content()[0..] == rbuf.Content();
      }
    }

    /** The loop of read. */
    method Attempt(req: Request, patient: bool) returns (out: Outcome)
      requires Sound() && nshift == 0 && !Bad() && !rtask && !woken && (line.Some? ==> req.WantLine?)
      modifies this, rbuf, rbuf.mem
      ensures Valid() && old(received) <= received && (rbuf.mem == old(rbuf.mem) || fresh(rbuf.mem))
      ensures Told(old(delivered), delivered, out)
      ensures !out.Raised? && (out.Blocked? ==> rtask && !woken)
      ensures old(Ready(req)) ==> out.Data? || out.Text? || out.End?
      ensures Fits(req, out, Unread(), phase.HalfClosed?) && (out.Blocked? ==> request == req)
    {
      hide Accounts, Fits, Lacks, Told;
      NothingTold(delivered);
      while true
        invariant Sound() && nshift == 0 && !Bad() && !rtask && !woken && (line.Some? ==> req.WantLine?)
        invariant delivered == old(delivered) && old(received) <= received && (rbuf.mem == old(rbuf.mem) || fresh(rbuf.mem))
        invariant old(Ready(req)) ==> Ready(req)
        decreases if phase.HalfClosed? then 0 else 1, rbufsiz - rbuf.datasiz
      {
        var done;
        done, out := TryOnce(req);
        if done {
          return;
        }
        ghost var left := Unread();
        var updated := false;
        if phase.Readable? {
          updated := ReadSome();
        }
        Waits(req, Unread(), phase.HalfClosed?);
        if !updated {
          assert Unread() == left;
          if !patient {
            return TimedOut;
          }
          Wait(req);
          return Blocked;
        }
        if phase.Errored? {
          return Failed;
        }
      }
    }

    /** What is there is returned, if it is enough, or the connection has ended. */
    method TryOnce(req: Request) returns (done: bool, out: Outcome)
      requires Sound() && nshift == 0 && !Bad() && (line.Some? ==> req.WantLine?)
      modifies `line, `held, `delivered, `nshift, rbuf, rbuf.mem
      ensures Sound() && rbuf.mem == old(rbuf.mem)
      ensures if done then Told(old(delivered), delivered, out) && line.None? else delivered == old(delivered) && line.None? && nshift == 0
      ensures done ==> out.Data? || out.Text? || out.End?
      ensures old(Ready(req)) ==> done
      ensures !done ==> !phase.HalfClosed? && Noted(req) != 0 && rbuf.datasiz == old(rbuf.datasiz) && Lacks(req, Unread())
      ensures done ==> Fits(req, out, Unread(), phase.HalfClosed?)
    {
      hide Accounts;
      done, out := true, End;
      if req.WantLine? {
        if line.None? {
          Hold();
        }
        if line.Some? {
          out := Text(line.value);
          HandLine();
        } else {
          done := phase.HalfClosed?;
        }
      } else if rbuf.datasiz >= Noted(req) {
        out := HandBytes(if req.Want? then req.n else rbuf.datasiz);
      } else if phase.HalfClosed? {
        if rbuf.datasiz > 0 {
          out := HandBytes(rbuf.datasiz);
        }
      } else {
        done := false;
      }
    }

    method HandLine()
      requires Sound() && line.Some?
      modifies `line, `held, `delivered
      ensures Sound() && line.None? && Told(old(delivered), delivered, Text(old(line.value)))
    {
      RawsMore(delivered, TextLine(held, line.value));
      delivered := delivered + [TextLine(held, line.value)];
      line, held := None, [];
      assert !Bad() ==> Raws(delivered) + [] + rbuf.Content()[nshift..] == Raws(delivered) + rbuf.Content()[nshift..];
    }

    method HandBytes(k: nat) returns (out: Outcome)
      requires Sound() && !Bad() && nshift == 0 && line.None? && k <= rbuf.datasiz
      modifies `nshift, `delivered
      ensures Sound() && nshift == k && out.Data? && |out.bytes| == k && Told(old(delivered), delivered, out)
    {
      ghost var c := rbuf.Content();
      var bytes := rbuf.mem[rbuf.data..rbuf.data + k];
      assert bytes == c[..k];
      out := Data(bytes);
      RawsMore(delivered, Block(bytes));
      delivered := delivered + [Block(bytes)];
      nshift := k;
      assert c[0..] == c[..k] + c[k..];
    }

    /** The task gives up control until it is woken. */
    method Wait(req: Request)
      requires Sound() && !Bad() && nshift == 0 && line.None? && Noted(req) != 0 && !woken
      modifies `rreqsiz, `rtask, `request
      ensures Valid() && rtask && request == req
    {
      rreqsiz, rtask, request := Noted(req), true, req;
    }

    method GoOn()
      requires Sound()
      modifies `rreqsiz, `rtask, `woken
      ensures Sound() && rreqsiz == 0 && !rtask && !woken
    {
      rreqsiz, rtask, woken := 0, false, false;
    }

    /** The rest of a read, when the task was woken or its time is over. */
    method Resume(timedOut: bool, patient: bool) returns (out: Outcome)
      requires Valid() && rtask && (timedOut <==> !woken)
      modifies this, rbuf, rbuf.mem
      ensures Valid() && old(received) <= received && (rbuf.mem == old(rbuf.mem) || fresh(rbuf.mem))
      ensures Told(old(delivered), delivered, out)
      ensures !timedOut && !old(Bad()) ==> out.Data? || out.Text? || out.End?
      ensures !timedOut ==> Fits(old(request), out, Unread(), phase.HalfClosed?)
    {
      hide Accounts;
      GoOn();
      if timedOut {
        return TimedOut;
      }
      if phase.Closed? || phase.Errored? {
        return Failed;
      }
      out := Attempt(request, patient);
    }

    /** A write has failed. */
    method WriteFailed()
      requires Valid()
      modifies `phase, `woken
      ensures Valid() && phase == Errored && woken == (old(woken) || rtask)
    {
      phase := Errored;
      if rtask {
        woken := true;
      }
    }

    /** stream_channel:close. */
    method Close()
      requires Valid()
      modifies this, rbuf
      ensures Valid() && phase == Closed && delivered == old(delivered) && (rtask ==> woken) && (rbuf.mem == old(rbuf.mem) || fresh(rbuf.mem))
    {
      rbuf.Reset();
      nshift, rreqsiz, phase := 0, 0, Closed;
      if rtask {
        woken := true;
      }
    }

    lemma OneLine(c: seq<byte>)
      ensures FirstLines(c, 1) == if FirstLine(c).None? then ([], c) else ([FirstLine(c).value.0], c[FirstLine(c).value.1..])
    {
      hide FirstLine;
      if FirstLine(c).Some? {
        var (text, n) := FirstLine(c).value;
        assert FirstLines(c[n..], 0) == ([], c[n..]);
        assert [text] + [] == [text];
      }
    }

    /** Over every run, when nothing but lines was read they are the first lines of the bytes received, however
      the kernel brought these and whether a read or an event found a line. */
    lemma LinesInOrder()
      requires Valid() && forall i :: i in delivered ==> i.TextLine?
      ensures FirstLines(received, |delivered|).0 == Texts(delivered)
      ensures !Bad() ==> FirstLines(received, |delivered|).1 == held + rbuf.Content()[nshift..]
    {
      hide Raws, ItemOk, FirstLines, Texts;
      var rest := received[|Raws(delivered)|..];
      assert received == Raws(delivered) + rest;
      LinesOnly(delivered, rest);
    }
  }

  /** What happens to a channel: an event, a read, the end of the time that a read waits, a failed write, close. */
  datatype Move = Event(hup: bool) | Reading(req: Request, patient: bool) | TimeUp | WriteFails | Closing

  /** The channel over any sequence of moves; the event loop resumes a task that was woken before it comes to
    the next one. */
  method Drive(moves: seq<Move>, patience: bool, rbufsiz: nat, pagesize: nat) returns (ch: StreamChannel, outs: seq<Outcome>)
    requires pagesize > 0
    ensures fresh(ch) && ch.Valid() && ch.rbuf.datasiz <= rbufsiz
    ensures Raws(ch.delivered) + ch.held <= ch.received
    ensures !ch.Bad() ==> ch.received == Raws(ch.delivered) + ch.held + ch.rbuf.Content()[ch.nshift..]
    ensures outs == Outcomes(ch.delivered)
  {
    hide StreamChannel.Valid, Raws, Outcomes;
    ch := new StreamChannel(rbufsiz, pagesize);
    outs := [];
    OutcomesNone();
    for i := 0 to |moves|
      invariant fresh(ch) && fresh(ch.rbuf) && fresh(ch.rbuf.mem)
      invariant ch.Valid() && ch.rbufsiz == rbufsiz
      invariant outs == Outcomes(ch.delivered)
    {
      var out := Blocked;
      ghost var before := ch.delivered;
      if ch.rtask && ch.woken {
        out := ch.Resume(false, patience);
        OutcomesTold(before, ch.delivered, out);
        outs := Noting(outs, out);
        before, out := ch.delivered, Blocked;
      }
      match moves[i] {
        case Event(hup) =>
          if !ch.woken {
            ch.OnEvent(hup);
          }
        case Reading(req, patient) => out := ch.Read(req, patient);
        case TimeUp =>
          if ch.rtask && !ch.woken {
            out := ch.Resume(true, patience);
          }
        case WriteFails => ch.WriteFailed();
        case Closing => ch.Close();
      }
      OutcomesTold(before, ch.delivered, out);
      outs := Noting(outs, out);
    }
    Meaning(ch);
  }

  lemma Meaning(ch: StreamChannel)
    requires ch.Valid()
    ensures ch.rbuf.datasiz <= ch.rbufsiz && Raws(ch.delivered) + ch.held <= ch.received
    ensures !ch.Bad() ==> ch.nshift <= ch.rbuf.datasiz && ch.received == Raws(ch.delivered) + ch.held + ch.rbuf.Content()[ch.nshift..]
  {
  }

  function Noting(outs: seq<Outcome>, out: Outcome): seq<Outcome> { if out.Data? || out.Text? then outs + [out] else outs }

  ghost function Outcomes(items: seq<Item>): seq<Outcome> {
    if items == [] then [] else Outcomes(items[..|items| - 1]) + [Returned(items[|items| - 1])]
  }

  lemma OutcomesNone()
    ensures Outcomes([]) == []
  {
  }

  lemma OutcomesTold(before: seq<Item>, after: seq<Item>, out: Outcome)
    requires Told(before, after, out)
    ensures Noting(Outcomes(before), out) == Outcomes(after)
  {
    if out.Data? || out.Text? {
      assert after[..|after| - 1] == before;
    }
  }

  lemma RawsMore(items: seq<Item>, i: Item)
    ensures Raws(items + [i]) == Raws(items) + i.raw
  {
    assert (items + [i])[..|items|] == items;
  }

  /** The bytes of a line, its end included, are a line by themselves. */
  lemma LineAlone(c: seq<byte>)
    requires FirstLine(c).Some?
    ensures var (text, n) := FirstLine(c).value; FirstLine(c[..n]) == Some((text, n))
  {
    var k := Newline(c).value;
    NewlineFirst(c);
    assert c[..k + 1] == c[..k] + [LF] + [];
    NewlineAt(c[..k], []);
    assert c[..k + 1][..k] == c[..k];
  }

  ghost function Texts(items: seq<Item>): (r: seq<seq<byte>>)
    ensures |r| == |items|
  {
    if items == [] then []
    else
      var i := items[|items| - 1];
      Texts(items[..|items| - 1]) + [if i.TextLine? then i.text else []]
  }

  lemma {:induction false} LinesOnly(items: seq<Item>, rest: seq<byte>)
    requires forall i :: i in items ==> i.TextLine? && ItemOk(i)
    ensures FirstLines(Raws(items) + rest, |items|) == (Texts(items), rest)
  {
    hide FirstLine;
    var n := |items|;
    if n > 0 {
      var i := items[n - 1];
      assert i in items && ItemOk(i);
      LinesOnly(items[..n - 1], i.raw + rest);
      var all := Raws(items) + rest;
      assert all == Raws(items[..n - 1]) + (i.raw + rest);
      LinesOnward(all, n - 1, 1);
      LineStays(i.raw, rest);
      assert (i.raw + rest)[|i.raw|..] == rest;
      assert FirstLines(rest, 0) == ([], rest);
      assert [i.text] + [] == [i.text];
    } else {
      assert [] + rest == rest;
    }
  }
}
