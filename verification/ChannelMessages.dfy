/** The messages of a channel are those that its callers wrote. */
module ChannelMessages {
  import opened Tasks
  import opened SchedModel
  import opened TaskQueues
  import opened ChannelModel
  import opened ChannelMoves
  import opened ChannelRuns

  /** The messages of the moves that raise the number of calls, in order. */
  ghost function Brought(x: Sys, ms: seq<Move>): seq<Value>
    decreases |ms|
  {
    if |ms| == 0 then []
    else
      var x' := Move1(x, ms[0]);
      (if x'.ch.calls != x.ch.calls then [MessageOf(ms[0])] else []) + Brought(x', ms[1..])
  }

  ghost function MessageOf(m: Move): Value {
    match m
    case DoWrite(msg, _) => msg
    case DoPost(msg) => msg
    case _ => Nothing
  }

  /** An entry holds the message of the call whose number it has. */
  ghost predicate Tells(log: seq<Value>, e: Entry) { e.id < |log| && log[e.id] == e.msg }

  ghost predicate TrueTo(ch: Chan, log: seq<Value>) {
    && |log| == ch.calls
    && (forall e :: e in ch.accepted ==> Tells(log, e))
    && (forall e :: e in ch.buffer ==> Tells(log, e))
    && (forall e :: e in ch.dropped ==> Tells(log, e))
    && (forall p :: p in ch.taken ==> Tells(log, p.entry))
    && (forall p :: p in ch.returned ==> Tells(log, p.entry))
    && (forall t :: t in ch.req ==> Tells(log, ch.req[t]))
  }

  lemma OffersTell(x: Sys, log: seq<Value>)
    requires Members(x) && TrueTo(x.ch, log)
    ensures forall i :: 0 <= i < |x.ch.writers| ==> Tells(log, x.ch.Offers()[i])
    ensures forall e :: e in x.ch.Line() ==> Tells(log, e)
  {
    forall i | 0 <= i < |x.ch.writers| ensures x.ch.writers[i] in x.ch.req {
      WaitingWriter(x, x.ch.writers[i]);
    }
  }

  /** One more call: what was true stays true. */
  lemma OneMoreCall(ch: Chan, log: seq<Value>, msg: Value)
    requires TrueTo(ch, log)
    ensures TrueTo(Numbered(ch), log + [msg]) && Tells(log + [msg], Entry(ch.calls, msg))
  {
  }

  lemma ReadTrue(x: Sys, sec: Option<real>, log: seq<Value>)
    requires Members(x) && TrueTo(x.ch, log)
    ensures TrueTo(Read(x, sec).ch, log)
  {
    hide Wake, Yield, Members;
    OffersTell(x, log);
  }

  lemma AcceptTrue(x: Sys, e: Entry, log: seq<Value>)
    requires TrueTo(x.ch, log) && Tells(log, e) && (x.ch.readers != [] || |x.ch.buffer| < x.ch.cap)
    ensures TrueTo(Accept(x, e).ch, log)
  {
    hide Wake;
  }

  lemma WriteTrue(x: Sys, msg: Value, sec: Option<real>, log: seq<Value>)
    requires TrueTo(x.ch, log) && x.sched.control.Running?
    ensures TrueTo(Write(x, msg, sec).ch, log + [msg])
  {
    hide Yield, Accept;
    OneMoreCall(x.ch, log, msg);
    var ch := Numbered(x.ch);
    if ch.open && (ch.readers != [] || |ch.buffer| < ch.cap) {
      AcceptTrue(Sys(x.sched, ch), Entry(x.ch.calls, msg), log + [msg]);
    }
  }

  lemma PostTrue(x: Sys, msg: Value, log: seq<Value>)
    requires TrueTo(x.ch, log)
    ensures TrueTo(Post(x, msg).ch, log + [msg])
  {
    hide Accept;
    OneMoreCall(x.ch, log, msg);
    var ch := Numbered(x.ch);
    if ch.open && (ch.readers != [] || |ch.buffer| < ch.cap) {
      AcceptTrue(Sys(x.sched, ch), Entry(x.ch.calls, msg), log + [msg]);
    }
  }

  lemma FollowingTrue(x: Sys, s': State, log: seq<Value>)
    requires TrueTo(x.ch, log)
    ensures TrueTo(Following(x, s').ch, log)
  {
    hide Unlinked;
  }

  lemma CloseTrue(x: Sys, log: seq<Value>)
    requires TrueTo(x.ch, log)
    ensures TrueTo(Closing(x).ch, log)
  {
    hide WakeAll;
  }

  lemma MoveTrue(x: Sys, m: Move, log: seq<Value>)
    requires SysInv(x) && TrueTo(x.ch, log)
    ensures var x' := Move1(x, m);
      TrueTo(x'.ch, log + if x'.ch.calls != x.ch.calls then [MessageOf(m)] else [])
    ensures Move1(x, m).ch.calls != x.ch.calls ==> Move1(x, m).ch.calls == x.ch.calls + 1 && (m.DoWrite? || m.DoPost?)
  {
    hide Inv, Bounds, InOrder, CallsKept, Delivery, Members, TrueTo, Read, Write, Post, Closing, Following;
    assert log + [] == log;
    Lengths(Move1(x, m).ch, log);
    Lengths(x.ch, log);
    match m
    case ByScheduler(a) =>
      FollowingTrue(x, Apply(x.sched, a), log);
    case DoRead(sec) =>
      ReadTrue(x, sec, log);
    case DoWrite(msg, sec) =>
      Lengths(Move1(x, m).ch, log + [msg]);
      if x.sched.control.Running? { WriteTrue(x, msg, sec, log); } else { WriteIdle(x, msg, sec); }
    case DoPost(msg) =>
      Lengths(Move1(x, m).ch, log + [msg]);
      PostTrue(x, msg, log);
    case DoClose =>
      CloseTrue(x, log);
  }

  lemma WriteIdle(x: Sys, msg: Value, sec: Option<real>)
    requires !x.sched.control.Running?
    ensures Write(x, msg, sec) == x
  {
  }

  lemma Lengths(ch: Chan, log: seq<Value>)
    ensures TrueTo(ch, log) ==> |log| == ch.calls
  {
  }

  lemma {:induction false} MovesTrue(x: Sys, ms: seq<Move>, log: seq<Value>)
    requires SysInv(x) && FairRun(x, ms) && TrueTo(x.ch, log)
    ensures TrueTo(Moves(x, ms).ch, log + Brought(x, ms))
    decreases |ms|
  {
    hide SysInv, Fair, Move1, TrueTo;
    if |ms| == 0 {
      assert log + [] == log;
    } else {
      var x' := Move1(x, ms[0]);
      var more := if x'.ch.calls != x.ch.calls then [MessageOf(ms[0])] else [];
      MoveInv(x, ms[0]);
      MoveTrue(x, ms[0], log);
      MovesTrue(x', ms[1..], log + more);
      assert log + (more + Brought(x', ms[1..])) == log + more + Brought(x', ms[1..]);
    }
  }

  /** Which move brought a message. */
  lemma {:induction false} BroughtBy(x: Sys, ms: seq<Move>, i: nat) returns (k: nat)
    requires SysInv(x) && FairRun(x, ms) && i < |Brought(x, ms)|
    requires exists log :: TrueTo(x.ch, log)
    ensures k < |ms| && (ms[k].DoWrite? || ms[k].DoPost?) && ms[k].msg == Brought(x, ms)[i]
    ensures Moves(x, ms[..k]).ch.calls == x.ch.calls + i && Moves(x, ms[..k + 1]).ch.calls == x.ch.calls + i + 1
    decreases |ms|
  {
    hide SysInv, Fair, Move1, TrueTo;
    var x' := Move1(x, ms[0]);
    var log :| TrueTo(x.ch, log);
    MoveInv(x, ms[0]);
    MoveTrue(x, ms[0], log);
    if x'.ch.calls != x.ch.calls && i == 0 {
      k := 0;
      assert ms[..0] == [] && ms[..1] == [ms[0]] && [ms[0]][1..] == [];
    } else {
      k := BroughtBy(x', ms[1..], if x'.ch.calls != x.ch.calls then i - 1 else i);
      assert ms[..k + 1][1..] == ms[1..][..k] && ms[..k + 2][1..] == ms[1..][..k + 1];
      k := k + 1;
    }
  }

  /** Over every run, whatever is accepted, on offer, in the ring, assigned, returned or dropped, is the message of
    the write or the post that raised the number of calls from the number of its entry to the next. */
  lemma AsWritten(now: real, cap: nat, ms: seq<Move>, e: Entry) returns (k: nat)
    requires FairRun(Opened(now, cap), ms)
    requires var ch := Moves(Opened(now, cap), ms).ch;
      e in ch.Line() || e in ch.buffer || e in ch.dropped || (exists p :: p in ch.taken + ch.returned && p.entry == e)
    ensures k < |ms| && (ms[k].DoWrite? || ms[k].DoPost?) && ms[k].msg == e.msg
    ensures Moves(Opened(now, cap), ms[..k]).ch.calls == e.id && Moves(Opened(now, cap), ms[..k + 1]).ch.calls == e.id + 1
  {
    hide SysInv, FairRun, Moves;
    var x := Reached(now, cap, ms);
    OpenedInv(now, cap);
    assert TrueTo(Opened(now, cap).ch, []);
    MovesTrue(Opened(now, cap), ms, []);
    assert [] + Brought(Opened(now, cap), ms) == Brought(Opened(now, cap), ms);
    MembersOf(x);
    OffersTell(x, Brought(Opened(now, cap), ms));
    k := BroughtBy(Opened(now, cap), ms, e.id);
  }

  lemma MembersOf(x: Sys)
    requires SysInv(x)
    ensures Members(x)
  {
    hide Inv, Members;
  }
}
