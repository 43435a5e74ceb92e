/** The messages that each reader is returned, in the order in which they were assigned to it. */
module ChannelOrder {
  import opened Tasks
  import opened SchedModel
  import opened ChannelModel
  import opened ChannelInvariant
  import opened ChannelMoves
  import opened ChannelRuns

  /** What `t` was given, in order. */
  ghost function By(q: seq<Parcel>, t: Task): seq<Entry> {
    if q == [] then []
    else By(q[..|q| - 1], t) + if q[|q| - 1].task == t then [q[|q| - 1].entry] else []
  }

  lemma ByMore(q: seq<Parcel>, p: Parcel, t: Task)
    ensures By(q + [p], t) == By(q, t) + if p.task == t then [p.entry] else []
  {
    assert (q + [p])[..|q|] == q;
  }

  /** The message that a reader is about to return. */
  ghost function AtHand(x: Sys, t: Task): seq<Entry> { if Reading(x, t) then [x.ch.req[t]] else [] }

  ghost predicate Mine(x: Sys, t: Task) { By(x.ch.taken, t) == By(x.ch.returned, t) + AtHand(x, t) }

  /** A task to which nothing happens. */
  lemma AtHandSame(x: Sys, x': Sys, t: Task, changed: set<Task>)
    requires QuietBut(x.sched, x'.sched, changed) && t !in changed
    requires t in x.ch.req <==> t in x'.ch.req
    requires t in x.ch.req ==> x'.ch.req[t] == x.ch.req[t]
    ensures AtHand(x', t) == AtHand(x, t)
  {
    if t in x.sched.info {
      assert Same(x.sched, x'.sched, t);
    }
  }

  lemma MineScheduler(x: Sys, a: Step, t: Task)
    requires SysInv(x) && Fair(x, ByScheduler(a)) && Mine(x, t)
    ensures Mine(Following(x, Apply(x.sched, a)), t)
  {
    hide Inv, QuietBut, Members, Bounds, InOrder, CallsKept, Delivery, Apply, Legal, Continue, Returned, AtHand;
    var s, s' := x.sched, Apply(x.sched, a);
    Unmarking(x);
    StepEffect(s, a);
    if u :| u in s.info && Returned(s, s', u, if s.Queued(u) then s.info[u].err else ETIMEDOUT) {
      MineReturned(x, s', u, t);
    } else {
      if |s'.answers| > |s.answers| {
        assert s'.answers[|s'.answers| - 1] in s'.answers[|s.answers|..];
        NotOurs(x.ch, s'.answers[|s'.answers| - 1]);
      }
      AtHandSame(x, Sys(s', x.ch), t, {});
    }
  }

  /** A call comes back. */
  lemma MineReturned(x: Sys, s': State, u: Task, t: Task)
    requires Members(x) && u in x.sched.info && Mine(x, t)
    requires Returned(x.sched, s', u, if x.sched.Queued(u) then x.sched.info[u].err else ETIMEDOUT)
    ensures Mine(Following(x, s'), t)
  {
    hide QuietBut, Members, Following, Inside;
    var x' := Following(x, s');
    ReturnedChan(x, s', u);
    if Reading(x, u) {
      ByMore(x.ch.returned, Parcel(u, x.ch.req[u]), t);
    } else {
      assert x.ch.returned + [] == x.ch.returned;
    }
    if t != u {
      AtHandSame(x, x', t, {u});
    }
  }

  /** Only a reader with a message at hand returns one. */
  lemma ReturnedChan(x: Sys, s': State, u: Task)
    requires Members(x) && u in x.sched.info
    requires Returned(x.sched, s', u, if x.sched.Queued(u) then x.sched.info[u].err else ETIMEDOUT)
    ensures Following(x, s').sched == s' && var ch := Following(x, s').ch;
      && ch.taken == x.ch.taken && ch.returned == x.ch.returned + (if Reading(x, u) then [Parcel(u, x.ch.req[u])] else [])
      && forall v :: v != u ==> (v in x.ch.req <==> v in ch.req) && (v in x.ch.req ==> ch.req[v] == x.ch.req[v])
  {
    hide QuietBut, Members;
    WellInside(x, u);
  }

  lemma WellInside(x: Sys, u: Task)
    requires Members(x) && u in x.sched.info && Inside(x.sched, u)
    ensures InsideWell(x, u)
  {
    assert MemberWell(x, u);
  }

  /** The task in control takes a message at once; a writer may be woken. */
  lemma MineGiven(x: Sys, x': Sys, u: Task, e: Entry, changed: set<Task>, t: Task)
    requires Mine(x, t) && QuietBut(x.sched, x'.sched, changed) && x'.ch.req == x.ch.req
    requires x'.ch.taken == x.ch.taken + [Parcel(u, e)] && x'.ch.returned == x.ch.returned + [Parcel(u, e)]
    requires !Inside(x.sched, u) && u !in changed
    requires forall h :: h in changed ==> !Reading(x, h) && !Reading(x', h)
    ensures Mine(x', t)
  {
    ByMore(x.ch.taken, Parcel(u, e), t);
    ByMore(x.ch.returned, Parcel(u, e), t);
    if t !in changed {
      AtHandSame(x, x', t, changed);
    }
  }

  lemma MineRead(x: Sys, sec: Option<real>, t: Task)
    requires SysInv(x) && Fair(x, DoRead(sec)) && Mine(x, t)
    ensures Mine(Read(x, sec), t)
  {
    hide Inv, QuietBut, Members, Bounds, InOrder, CallsKept, Delivery, Wake, Yield, Mine;
    var x', ch := Read(x, sec), x.ch;
    if x.sched.control.Running? && ch.open {
      var u := x.sched.control.task;
      NotInside(x.sched);
      Outsider(x, u);
      if ch.writers != [] {
        var h := ch.writers[0];
        WaitingWriter(x, h);
        WakeMember(x.sched, h, Ok);
        MineGiven(x, x', u, if ch.buffer != [] then ch.buffer[0] else ch.Offers()[0], {h}, t);
      } else if ch.buffer != [] {
        QuietSelf(x.sched);
        MineGiven(x, x', u, ch.buffer[0], {}, t);
      } else {
        YieldMember(x.sched, sec, InRead);
        MineBlocked(x, x', u, t);
      }
    }
  }

  /** The task in control blocks in its call. */
  lemma MineBlocked(x: Sys, x': Sys, u: Task, t: Task)
    requires Mine(x, t) && QuietBut(x.sched, x'.sched, {u}) && x'.ch.taken == x.ch.taken && x'.ch.returned == x.ch.returned
    requires !Reading(x, u) && !Reading(x', u) && forall v :: v != u ==> (v in x.ch.req <==> v in x'.ch.req) && (v in x.ch.req ==> x'.ch.req[v] == x.ch.req[v])
    ensures Mine(x', t)
  {
    if t != u {
      AtHandSame(x, x', t, {u});
    }
  }

  lemma QuietSelf(s: State)
    ensures QuietBut(s, s, {})
  {
  }

  lemma MineAccept(x: Sys, e: Entry, t: Task)
    requires Inv(x.sched) && Members(x) && Mine(x, t) && (x.ch.readers != [] || |x.ch.buffer| < x.ch.cap)
    ensures Mine(Accept(x, e), t)
  {
    hide Inv, QuietBut, Members, Wake;
    var x' := Accept(x, e);
    if x.ch.readers != [] {
      var h := x.ch.readers[0];
      WaitingReader(x, h);
      WakeMember(x.sched, h, Ok);
      ByMore(x.ch.taken, Parcel(h, e), t);
      if t != h {
        AtHandSame(x, x', t, {h});
      }
    } else {
      QuietSelf(x.sched);
      AtHandSame(x, x', t, {});
    }
  }

  lemma MineNumbered(x: Sys, ch: Chan, t: Task)
    requires Mine(x, t) && ch.taken == x.ch.taken && ch.returned == x.ch.returned && ch.req == x.ch.req
    ensures Mine(Sys(x.sched, ch), t)
  {
  }

  lemma MineWrite(x: Sys, msg: Value, sec: Option<real>, t: Task)
    requires SysInv(x) && Fair(x, DoWrite(msg, sec)) && Mine(x, t)
    ensures Mine(Write(x, msg, sec), t)
  {
    hide Inv, QuietBut, Bounds, InOrder, CallsKept, Delivery, Accept, Yield, Mine;
    var x', ch := Write(x, msg, sec), Numbered(x.ch);
    MineNumbered(x, ch, t);
    MineNumbered(x, Replied(ch, x.ch.calls, EPIPE), t);
    if x.sched.control.Running? && ch.open {
      if ch.readers != [] || |ch.buffer| < ch.cap {
        MineAccept(Sys(x.sched, ch), Entry(x.ch.calls, msg), t);
      } else {
        var u := x.sched.control.task;
        YieldMember(x.sched, sec, InWrite);
        MineBlocked(x, x', u, t);
      }
    }
  }

  lemma MinePost(x: Sys, msg: Value, t: Task)
    requires SysInv(x) && Mine(x, t)
    ensures Mine(Post(x, msg), t)
  {
    hide Inv, QuietBut, Bounds, InOrder, CallsKept, Delivery, Accept, Mine;
    var ch := Numbered(x.ch);
    MineNumbered(x, ch, t);
    MineNumbered(x, Replied(ch, x.ch.calls, EPIPE), t);
    if ch.open && (ch.readers != [] || |ch.buffer| < ch.cap) {
      MineAccept(Sys(x.sched, ch), Entry(x.ch.calls, msg), t);
    }
  }

  lemma MineClose(x: Sys, t: Task)
    requires SysInv(x) && Mine(x, t)
    ensures Mine(Closing(x), t)
  {
    hide Inv, QuietBut, Members, Bounds, InOrder, CallsKept, Delivery, WakeAll;
    CloseInv(x);
    var x', q := Closing(x), x.ch.readers + x.ch.writers;
    if x.ch.open && t !in TasksOf(q) {
      AtHandSame(x, x', t, TasksOf(q));
    } else if x.ch.open {
      assert t in q;
      if t in x.ch.readers { WaitingReader(x, t); } else { WaitingWriter(x, t); }
    }
  }

  lemma {:induction false} MineMoves(x: Sys, ms: seq<Move>, t: Task)
    requires SysInv(x) && FairRun(x, ms) && Mine(x, t)
    ensures Mine(Moves(x, ms), t)
    decreases |ms|
  {
    hide SysInv, Fair, Move1, Mine;
    if |ms| != 0 {
      MoveInv(x, ms[0]);
      MineMove(x, ms[0], t);
      MineMoves(Move1(x, ms[0]), ms[1..], t);
    }
  }

  lemma MineMove(x: Sys, m: Move, t: Task)
    requires SysInv(x) && Fair(x, m) && Mine(x, t)
    ensures Mine(Move1(x, m), t)
  {
    hide SysInv, Mine;
    match m
    case ByScheduler(a) => MineScheduler(x, a, t);
    case DoRead(sec) => MineRead(x, sec, t);
    case DoWrite(msg, sec) => MineWrite(x, msg, sec, t);
    case DoPost(msg) => MinePost(x, msg, t);
    case DoClose => MineClose(x, t);
  }

  /** Over every run, a reader is returned its messages in the order in which they were assigned to it, so in the
    order in which they were accepted; at most the last of them is still to come, and this only while the
    reader has not been resumed. */
  lemma ReadOrder(now: real, cap: nat, ms: seq<Move>, t: Task)
    requires FairRun(Opened(now, cap), ms)
    ensures var x := Moves(Opened(now, cap), ms);
      && By(x.ch.returned, t) <= By(x.ch.taken, t) && |By(x.ch.taken, t)| <= |By(x.ch.returned, t)| + 1
      && (By(x.ch.returned, t) != By(x.ch.taken, t) <==> Reading(x, t))
  {
    hide SysInv, FairRun, Moves;
    OpenedInv(now, cap);
    MineMoves(Opened(now, cap), ms, t);
  }
}
