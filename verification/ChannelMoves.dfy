/** Each call of the channel keeps the invariant. */
module ChannelMoves {
  import opened RbShape
  import opened Tasks
  import opened TimerQueue
  import opened SchedModel
  import opened SchedInvariant
  import opened ChannelModel
  import opened ChannelInvariant
  import opened TaskQueues

  // ---------- the numbering of the calls ----------

  lemma IdsPush(q: seq<Entry>, e: Entry)
    ensures Ids(q + [e]) == Ids(q) + {e.id}
  {
    assert e in q + [e];
    forall d | d in q ensures d in q + [e] {
    }
  }

  /** The number of a new call is new. */
  lemma NewCall(ch: Chan)
    requires CallsKept(ch)
    ensures ch.calls !in Ids(ch.Line()) && ch.calls !in ch.refused
    ensures forall e :: e in ch.Line() ==> e.id < ch.calls
    ensures forall e :: e in ch.accepted ==> e.id < ch.calls
  {
    forall e | e in ch.Line() ensures e.id < ch.calls {
      assert e.id in Ids(ch.Line());
    }
    forall e | e in ch.accepted ensures e.id < ch.calls {
      assert e in ch.Line();
    }
  }

  /** A new message goes to the end of the line. */
  lemma LineGrows(ch: Chan, ch': Chan, e: Entry)
    requires CallsKept(ch) && Rising(ch.Line()) && e.id == ch.calls
    requires ch'.Line() == ch.Line() + [e] && ch'.calls == ch.calls + 1 && ch'.refused == ch.refused
    requires forall d :: d in ch.accepted ==> d in ch'.accepted
    requires ch'.replies == ch.replies || (ch'.replies == ch.replies + [Reply(e.id, Ok)] && e in ch'.accepted)
    ensures CallsKept(ch') && Rising(ch'.Line())
  {
    NewCall(ch);
    IdsPush(ch.Line(), e);
    RepliesKept(ch, ch');
    assert e in ch'.accepted ==> e.id in Ids(ch'.accepted);
  }

  lemma RepliesKept(ch: Chan, ch': Chan)
    requires forall r :: r in ch.replies ==> if r.err.Ok? then r.id in Ids(ch.accepted) else r.id in ch.refused
    requires (forall e :: e in ch.accepted ==> e in ch'.accepted) && ch.refused <= ch'.refused
    ensures forall r :: r in ch.replies ==> if r.err.Ok? then r.id in Ids(ch'.accepted) else r.id in ch'.refused
  {
    forall i | i in Ids(ch.accepted) ensures i in Ids(ch'.accepted) {
      var e :| e in ch.accepted && e.id == i;
      assert e in ch'.accepted;
    }
  }

  /** Messages only move from offer to accepted. */
  lemma LineMoves(ch: Chan, ch': Chan)
    requires CallsKept(ch) && ch'.Line() == ch.Line() && ch'.calls == ch.calls && ch'.refused == ch.refused && ch'.replies == ch.replies
    requires forall d :: d in ch.accepted ==> d in ch'.accepted
    ensures CallsKept(ch')
  {
    RepliesKept(ch, ch');
  }

  /** A new call is refused. */
  lemma CallRefused(ch: Chan, ch': Chan)
    requires CallsKept(ch) && ch'.Line() == ch.Line() && ch'.accepted == ch.accepted
    requires ch' == Replied(Numbered(ch), ch.calls, EPIPE)
    ensures CallsKept(ch')
  {
    NewCall(ch);
  }

  // ---------- waking ----------

  /** A task that waits in the channel is woken. */
  lemma WakeMember(s: State, t: Task, err: Errno)
    requires Inv(s) && Inside(s, t) && !s.Current(t) && !s.Queued(t)
    ensures var s' := Wake(s, t, err);
      && Inv(s') && QuietBut(s, s', {t}) && Inside(s', t) && s'.Queued(t) && !s'.Current(t)
      && s'.info[t] == s.info[t].(err := err) && s'.control == s.control && s'.info.Keys == s.info.Keys
      && s'.ready == s.ready + [t] && s'.detached == s.detached
  {
    hide Inv, Removed;
    WakeInv(s, t, err);
    PushQuiet(s, t, err);
  }

  lemma WaitingReader(x: Sys, t: Task)
    requires Members(x) && t in x.ch.readers
    ensures t in x.sched.info && Inside(x.sched, t) && !x.sched.Current(t) && !x.sched.Queued(t)
    ensures x.sched.info[t].frame.value.wait.InRead? && !x.sched.info[t].sig && t !in x.ch.req && t !in x.ch.writers
  {
    assert MemberWell(x, t);
  }

  lemma WaitingWriter(x: Sys, t: Task)
    requires Members(x) && t in x.ch.writers
    ensures t in x.sched.info && Inside(x.sched, t) && !x.sched.Current(t) && !x.sched.Queued(t)
    ensures x.sched.info[t].frame.value.wait.InWrite? && !x.sched.info[t].sig && t in x.ch.req && t !in x.ch.readers
  {
    assert MemberWell(x, t);
  }

  // ---------- write and post ----------

  /** The message goes to the first waiting reader. */
  lemma HandedInv(x: Sys, e: Entry)
    requires SysInv(x) && x.ch.readers != [] && e.id == x.ch.calls
    ensures SysInv(Accept(Sys(x.sched, Numbered(x.ch)), e))
  {
    hide Inv, QuietBut, Members, CallsKept, Rising, NoDup, Wake, MemberWell, Delivery;
    var x', h := Accept(Sys(x.sched, Numbered(x.ch)), e), x.ch.readers[0];
    Tail(x.ch.readers);
    WaitingReader(x, h);
    WakeMember(x.sched, h, Ok);
    HandedMembers(x, x', e, h);
    EntriesPush(x.ch.taken, Parcel(h, e));
    assert x.ch.Line() == x.ch.accepted && x'.ch.Line() == x.ch.Line() + [e];
    LineGrows(x.ch, x'.ch, e);
    HandedDelivery(x, x', e, h);
  }

  lemma HandedMembers(x: Sys, x': Sys, e: Entry, h: Task)
    requires Members(x) && x.ch.readers != [] && NoDup(x.ch.readers) && h == x.ch.readers[0]
    requires x'.ch == Replied(Handed(Numbered(x.ch), e), e.id, Ok)
    requires Inside(x.sched, h) && x.sched.info[h].frame.value.wait.InRead? && !x.sched.info[h].sig && h !in x.ch.writers
    requires var s, s' := x.sched, x'.sched;
      QuietBut(s, s', {h}) && Inside(s', h) && s'.Queued(h) && !s'.Current(h) && s'.info[h] == s.info[h].(err := Ok)
    ensures Members(x')
  {
    hide NoDup, QuietBut;
    Tail(x.ch.readers);
    MembersKept(x, x', {h});
  }

  lemma HandedDelivery(x: Sys, x': Sys, e: Entry, h: Task)
    requires Delivery(x) && Members(x) && CallsKept(x.ch) && x.ch.accepted == Contents(x.ch.taken) + x.ch.buffer + x.ch.dropped
    requires x.ch.readers != [] && h == x.ch.readers[0] && x'.ch == Replied(Handed(Numbered(x.ch), e), e.id, Ok)
    requires e.id == x.ch.calls && h !in x.ch.req
    requires var s, s' := x.sched, x'.sched;
      QuietBut(s, s', {h}) && Inside(s', h) && h in s.info && s'.info[h] == s.info[h].(err := Ok) && s.info[h].frame.Some? && s.info[h].frame.value.wait.InRead?
    ensures Delivery(x')
  {
    var p := Parcel(h, e);
    NewParcel(x.ch, p);
    forall q | q in x'.ch.taken && q !in x'.ch.returned ensures Holding(x', q) {
      if q != p {
        assert Holding(x, q);
        assert Same(x.sched, x'.sched, q.task);
      }
    }
    forall t | t in x'.ch.req && x'.sched.Alive(t) && x'.sched.info[t].frame.Some? && x'.sched.info[t].frame.value.wait.InRead?
      ensures Parcel(t, x'.ch.req[t]) in x'.ch.taken && Parcel(t, x'.ch.req[t]) !in x'.ch.returned {
      if t != h {
        assert Same(x.sched, x'.sched, t);
      }
    }
  }

  lemma NewParcel(ch: Chan, p: Parcel)
    requires CallsKept(ch) && p.entry.id >= ch.calls && ch.accepted == Contents(ch.taken) + ch.buffer + ch.dropped
    ensures p !in ch.taken
  {
    NewCall(ch);
    forall i | 0 <= i < |ch.taken| ensures ch.taken[i] != p {
      assert ch.accepted[i] == ch.taken[i].entry;
    }
  }

  /** The message goes into the ring. */
  lemma StoredInv(x: Sys, e: Entry)
    requires SysInv(x) && x.ch.open && x.ch.readers == [] && |x.ch.buffer| < x.ch.cap && e.id == x.ch.calls
    ensures SysInv(Accept(Sys(x.sched, Numbered(x.ch)), e))
  {
    hide Inv, QuietBut, Members, CallsKept, Rising, Delivery;
    var x' := Accept(Sys(x.sched, Numbered(x.ch)), e);
    assert x.ch.Line() == x.ch.accepted && x'.ch.Line() == x.ch.Line() + [e];
    LineGrows(x.ch, x'.ch, e);
    NothingDone(x.sched);
    StillMembers(x, x');
    DeliveryKept(x, x', {});
  }

  lemma NothingDone(s: State)
    ensures QuietBut(s, s, {})
  {
  }

  lemma StillMembers(x: Sys, x': Sys)
    requires Members(x) && x'.sched == x.sched && Grown(x.ch, x'.ch)
    requires x'.ch.readers == x.ch.readers && x'.ch.writers == x.ch.writers && x'.ch.req == x.ch.req
    ensures Members(x') && forall t :: t in x'.ch.req ==> t in x.sched.info
  {
    NothingDone(x.sched);
    MembersKept(x, x', {});
  }

  lemma RefusedInv(x: Sys)
    requires SysInv(x)
    ensures SysInv(Sys(x.sched, Replied(Numbered(x.ch), x.ch.calls, EPIPE)))
  {
    hide Inv, QuietBut, Members, CallsKept, Rising, Delivery;
    var x' := Sys(x.sched, Replied(Numbered(x.ch), x.ch.calls, EPIPE));
    OffersSame(x.ch, x'.ch);
    CallRefused(x.ch, x'.ch);
    NothingDone(x.sched);
    StillMembers(x, x');
    DeliveryKept(x, x', {});
  }

  lemma PostInv(x: Sys, msg: Value)
    requires SysInv(x)
    ensures SysInv(Post(x, msg))
  {
    hide SysInv, Accept, Replied;
    var e := Entry(x.ch.calls, msg);
    if x.ch.open && x.ch.readers != [] {
      HandedInv(x, e);
    } else if x.ch.open && |x.ch.buffer| < x.ch.cap {
      StoredInv(x, e);
    } else {
      RefusedInv(x);
    }
  }

  // ---------- blocking ----------

  /** The current task blocks in the channel. */
  lemma YieldMember(s: State, sec: Option<real>, wait: Wait)
    requires Inv(s) && s.control.Running? && (wait.InRead? || wait.InWrite?) && (s.Alive(s.control.task) ==> !s.info[s.control.task].sig)
    ensures var s', t := Yield(s, sec, false, wait), s.control.task;
      && t in s.info && !Inside(s, t)
      && Inv(s') && QuietBut(s, s', {t}) && s'.info.Keys == s.info.Keys
      && Inside(s', t) && s'.info[t].frame.value.wait == wait && !s'.info[t].sig && !s'.Queued(t) && !s'.Current(t)
  {
    NotInside(s);
    assert s.Alive(s.control.task) && !s.Queued(s.control.task) by { OutOfQueues(s); }
    hide Inv, QuietBut, Inserted;
    YieldInv(s, sec, false, wait);
    SuspendQuiet(s, s.control.task, Frame(s.now, Seconds(sec), false, wait));
  }

  lemma OutOfQueues(s: State)
    requires Inv(s) && !s.control.Idle?
    ensures s.Alive(s.control.task) && !s.Queued(s.control.task)
  {
    assert s.control.task !in s.ready + s.detached;
  }

  /** A task outside is in no queue of the channel. */
  lemma Outsider(x: Sys, t: Task)
    requires Members(x) && t in x.sched.info && !Inside(x.sched, t)
    ensures t !in x.ch.readers && t !in x.ch.writers && t !in x.ch.req
  {
    assert MemberWell(x, t);
  }

  lemma PushedNoDup(q: seq<Task>, t: Task)
    requires NoDup(q) && t !in q
    ensures NoDup(q + [t])
  {
  }

  lemma BlockedWriteInv(x: Sys, msg: Value, sec: Option<real>)
    requires SysInv(x) && Fair(x, DoWrite(msg, sec)) && x.sched.control.Running?
    requires x.ch.open && x.ch.readers == [] && |x.ch.buffer| >= x.ch.cap
    ensures SysInv(Write(x, msg, sec))
  {
    hide Inv, QuietBut, Members, CallsKept, Rising, NoDup, Yield, Delivery;
    var x', t, e := Write(x, msg, sec), x.sched.control.task, Entry(x.ch.calls, msg);
    YieldMember(x.sched, sec, InWrite);
    Outsider(x, t);
    PushedNoDup(x.ch.writers, t);
    OffersPush(x.ch, x'.ch, t, e);
    LineGrows(x.ch, x'.ch, e);
    BlockedMembers(x, x', t);
    DeliveryKept(x, x', {t});
  }

  lemma OffersPush(ch: Chan, ch': Chan, t: Task, e: Entry)
    requires ch'.writers == ch.writers + [t] && ch'.req == ch.req[t := e] && t !in ch.writers && ch'.accepted == ch.accepted
    ensures ch'.Line() == ch.Line() + [e]
  {
    forall i | 0 <= i < |ch.writers| ensures ch'.Offers()[i] == ch.Offers()[i] {
      assert ch.writers[i] in ch.writers;
    }
    assert ch'.Offers() == ch.Offers() + [e];
    assert ch.accepted + (ch.Offers() + [e]) == ch.Line() + [e];
  }

  lemma BlockedMembers(x: Sys, x': Sys, t: Task)
    requires Members(x) && t in x.sched.info && QuietBut(x.sched, x'.sched, {t}) && t in x'.sched.info && MemberWell(x', t)
    requires Grown(x.ch, x'.ch)
    requires forall u :: u in x.sched.info && u != t ==> SameIn(x.ch, x'.ch, u)
    requires forall u :: u in x'.ch.readers ==> u == t || u in x.ch.readers
    requires forall u :: u in x'.ch.writers ==> u == t || u in x.ch.writers
    requires forall u :: u in x'.ch.req ==> u == t || u in x.ch.req
    ensures Members(x')
    ensures forall u :: u in x'.ch.req ==> u in x.sched.info
  {
    hide QuietBut, MemberWell;
    MembersKept(x, x', {t});
  }

  lemma BlockedReadInv(x: Sys, sec: Option<real>)
    requires SysInv(x) && Fair(x, DoRead(sec)) && x.sched.control.Running?
    requires x.ch.open && x.ch.buffer == [] && x.ch.writers == []
    ensures SysInv(Read(x, sec))
  {
    hide Inv, QuietBut, Members, CallsKept, Rising, NoDup, Yield, Delivery;
    var x', t := Read(x, sec), x.sched.control.task;
    YieldMember(x.sched, sec, InRead);
    Outsider(x, t);
    PushedNoDup(x.ch.readers, t);
    OffersSame(x.ch, x'.ch);
    LineMoves(x.ch, x'.ch);
    BlockedMembers(x, x', t);
    DeliveryKept(x, x', {t});
  }

  lemma WriteInv(x: Sys, msg: Value, sec: Option<real>)
    requires SysInv(x) && Fair(x, DoWrite(msg, sec))
    ensures SysInv(Write(x, msg, sec))
  {
    var e := Entry(x.ch.calls, msg);
    if x.sched.control.Running? {
      if x.ch.open && x.ch.readers == [] && |x.ch.buffer| >= x.ch.cap {
        BlockedWriteInv(x, msg, sec);
      } else {
        hide SysInv, Accept, Replied;
        if !x.ch.open {
          RefusedInv(x);
        } else if x.ch.readers != [] {
          HandedInv(x, e);
        } else {
          StoredInv(x, e);
        }
      }
    }
  }

  // ---------- reads that find a message ----------

  /** A new parcel is given and returned in one step. */
  lemma GivenDelivery(x: Sys, x': Sys, p: Parcel, changed: set<Task>)
    requires Delivery(x) && Members(x) && QuietBut(x.sched, x'.sched, changed) && p !in x.ch.taken
    requires x'.ch.taken == x.ch.taken + [p] && x'.ch.returned == x.ch.returned + [p] && x'.ch.req == x.ch.req
    requires forall t :: t in changed ==> t in x.sched.info && !Reading(x, t) && !Reading(x', t)
    ensures Delivery(x')
  {
    hide Inv;
    var x1 := Sys(x'.sched, x.ch);
    DeliveryKept(x, x1, changed);
    forall q | q in x'.ch.taken && q !in x'.ch.returned ensures Holding(x', q) {
      assert Holding(x1, q);
    }
  }

  /** The first message of the ring has not been taken. */
  lemma FrontNew(ch: Chan, t: Task)
    requires InOrder(ch) && ch.buffer != []
    ensures Parcel(t, ch.buffer[0]) !in ch.taken
  {
    assert ch.Line()[|ch.taken|] == ch.buffer[0];
    forall i | 0 <= i < |ch.taken| ensures ch.taken[i].entry != ch.buffer[0] {
      assert ch.Line()[i] == ch.taken[i].entry;
    }
  }

  /** What is on offer has not been taken. */
  lemma OfferNew(ch: Chan, t: Task)
    requires InOrder(ch) && ch.writers != []
    ensures Parcel(t, ch.Offers()[0]) !in ch.taken
  {
    assert ch.Line()[|ch.accepted|] == ch.Offers()[0];
    forall i | 0 <= i < |ch.taken| ensures ch.taken[i].entry != ch.Offers()[0] {
      assert ch.Line()[i] == ch.taken[i].entry;
    }
  }

  /** A reader takes the first message of the ring; nobody waits to write. */
  lemma ReadRingInv(x: Sys, t: Task)
    requires SysInv(x) && x.ch.buffer != [] && x.ch.writers == []
    ensures SysInv(Sys(x.sched, Given(x.ch.(buffer := x.ch.buffer[1..]), t, x.ch.buffer[0])))
  {
    hide Inv, QuietBut, Members, CallsKept, Rising, NoDup, Delivery;
    var x', p := Sys(x.sched, Given(x.ch.(buffer := x.ch.buffer[1..]), t, x.ch.buffer[0])), Parcel(t, x.ch.buffer[0]);
    FrontNew(x.ch, t);
    OffersSame(x.ch, x'.ch);
    LineMoves(x.ch, x'.ch);
    EntriesPush(x.ch.taken, p);
    assert x.ch.buffer == [x.ch.buffer[0]] + x.ch.buffer[1..];
    NothingDone(x.sched);
    StillMembers(x, x');
    GivenDelivery(x, x', p, {});
  }

  /** The first waiting writer is woken with its message accepted. */
  lemma AdmittedMembers(x: Sys, x': Sys, h: Task)
    requires Members(x) && x.ch.writers != [] && NoDup(x.ch.writers) && h == x.ch.writers[0] && h !in x.ch.readers
    requires x'.ch.readers == x.ch.readers && x'.ch.writers == x.ch.writers[1..] && x'.ch.req == x.ch.req && h in x.ch.req
    requires x'.ch.accepted == x.ch.accepted + [x.ch.req[h]] && x'.ch.refused == x.ch.refused && x'.ch.open == x.ch.open
    requires Inside(x.sched, h) && x.sched.info[h].frame.value.wait.InWrite? && !x.sched.info[h].sig
    requires var s, s' := x.sched, x'.sched;
      QuietBut(s, s', {h}) && Inside(s', h) && s'.Queued(h) && !s'.Current(h) && s'.info[h] == s.info[h].(err := Ok)
    ensures Members(x')
  {
    hide NoDup, QuietBut;
    Tail(x.ch.writers);
    MembersKept(x, x', {h});
  }

  /** A reader takes the first message of the ring, and that of the first waiting writer moves up. */
  lemma ReadShiftInv(x: Sys, t: Task)
    requires SysInv(x) && x.ch.buffer != [] && x.ch.writers != []
    ensures SysInv(Sys(Wake(x.sched, x.ch.writers[0], Ok),
      Admitted(Given(x.ch.(buffer := x.ch.buffer[1..] + [x.ch.Offers()[0]]), t, x.ch.buffer[0]))))
  {
    hide Inv, QuietBut, Members, CallsKept, Rising, NoDup, Wake, MemberWell, Delivery;
    var ch, h, o := x.ch, x.ch.writers[0], x.ch.Offers()[0];
    var p := Parcel(t, ch.buffer[0]);
    var ch1 := Given(ch.(buffer := ch.buffer[1..] + [o]), t, ch.buffer[0]);
    var x' := Sys(Wake(x.sched, h, Ok), Admitted(ch1));
    Tail(ch.writers);
    WaitingWriter(x, h);
    WakeMember(x.sched, h, Ok);
    OffersSame(ch, ch1);
    OffersFirst(ch1);
    FrontNew(ch, t);
    LineMoves(ch, x'.ch);
    EntriesPush(ch.taken, p);
    assert ch.buffer == [ch.buffer[0]] + ch.buffer[1..];
    assert x'.ch.accepted == Contents(x'.ch.taken) + x'.ch.buffer + x'.ch.dropped;
    AdmittedMembers(x, x', h);
    GivenDelivery(x, x', p, {h});
  }

  /** Without a ring a reader takes the message of the first waiting writer. */
  lemma ReadDirectInv(x: Sys, t: Task)
    requires SysInv(x) && x.ch.buffer == [] && x.ch.writers != []
    ensures SysInv(Sys(Wake(x.sched, x.ch.writers[0], Ok), Given(Admitted(x.ch), t, x.ch.Offers()[0])))
  {
    hide Inv, QuietBut, Members, CallsKept, Rising, NoDup, Wake, MemberWell, Delivery;
    var ch, h, o := x.ch, x.ch.writers[0], x.ch.Offers()[0];
    var p := Parcel(t, o);
    var x' := Sys(Wake(x.sched, h, Ok), Given(Admitted(ch), t, o));
    Tail(ch.writers);
    WaitingWriter(x, h);
    WakeMember(x.sched, h, Ok);
    OffersFirst(ch);
    OffersSame(Admitted(ch), x'.ch);
    OfferNew(ch, t);
    LineMoves(ch, x'.ch);
    EntriesPush(ch.taken, p);
    assert x'.ch.accepted == Contents(x'.ch.taken) + x'.ch.buffer + x'.ch.dropped;
    AdmittedMembers(x, x', h);
    GivenDelivery(x, x', p, {h});
  }

  lemma ReadInv(x: Sys, sec: Option<real>)
    requires SysInv(x) && Fair(x, DoRead(sec))
    ensures SysInv(Read(x, sec))
  {
    if x.sched.control.Running? && x.ch.open {
      var t := x.sched.control.task;
      if x.ch.buffer == [] && x.ch.writers == [] {
        BlockedReadInv(x, sec);
      } else {
        hide SysInv, Wake;
        if x.ch.writers == [] {
          ReadRingInv(x, t);
        } else if x.ch.buffer != [] {
          ReadShiftInv(x, t);
        } else {
          ReadDirectInv(x, t);
        }
      }
    }
  }

  // ---------- close ----------

  ghost function TasksOf(q: seq<Task>): set<Task> { set t | t in q }

  /** What waking all of a queue comes to: they are ready, in the order of the queue. */
  ghost predicate AllWoken(s: State, s': State, q: seq<Task>, err: Errno) {
    && QuietBut(s, s', TasksOf(q)) && s'.control == s.control && s'.info.Keys == s.info.Keys
    && s'.ready == s.ready + q && s'.detached == s.detached
    && (forall t :: t in q ==> t in s.info && Inside(s', t) && s'.info[t].err == err && s'.info[t].sig == s.info[t].sig && s'.info[t].frame == s.info[t].frame)
  }

  lemma {:induction false} WakeAllInv(s: State, q: seq<Task>, err: Errno)
    requires Inv(s) && NoDup(q) && forall t :: t in q ==> Inside(s, t) && !s.Current(t) && !s.Queued(t)
    ensures Inv(WakeAll(s, q, err)) && AllWoken(s, WakeAll(s, q, err), q, err)
    decreases |q|
  {
    hide Inv, Wake, NoDup;
    if q == [] {
      NothingDone(s);
    } else {
      Tail(q);
      WakeMember(s, q[0], err);
      var s1 := Wake(s, q[0], err);
      forall t | t in q[1..] ensures Inside(s1, t) && !s1.Current(t) && !s1.Queued(t) && s1.info[t] == s.info[t] {
        WakeOthers(s, q[0], t, err);
      }
      WakeAllInv(s1, q[1..], err);
      AllWokenStep(s, s1, WakeAll(s, q, err), q, err);
    }
  }

  lemma WakeOthers(s: State, h: Task, t: Task, err: Errno)
    requires Inside(s, t) && !s.Current(t) && !s.Queued(t) && t != h
    ensures var s1 := Wake(s, h, err); Inside(s1, t) && !s1.Current(t) && !s1.Queued(t) && s1.info[t] == s.info[t]
  {
    hide Removed;
  }

  lemma AllWokenStep(s: State, s1: State, s2: State, q: seq<Task>, err: Errno)
    requires q != [] && QuietBut(s, s1, {q[0]}) && Inside(s1, q[0]) && q[0] !in q[1..] && q[0] in s.info
    requires s1.info[q[0]] == s.info[q[0]].(err := err) && s1.control == s.control && s1.info.Keys == s.info.Keys
    requires s1.ready == s.ready + [q[0]] && s1.detached == s.detached
    requires forall t :: t in q[1..] ==> t in s1.info && t in s.info && s1.info[t] == s.info[t]
    requires AllWoken(s1, s2, q[1..], err)
    ensures AllWoken(s, s2, q, err)
  {
    assert q == [q[0]] + q[1..];
    forall t | t in s.info && t !in TasksOf(q) ensures Same(s, s2, t) {
      assert Same(s, s1, t);
      assert Same(s1, s2, t);
    }
    assert Same(s1, s2, q[0]);
    forall t | t in q ensures t == q[0] || t in q[1..] {
    }
  }

  lemma CloseInv(x: Sys)
    requires SysInv(x)
    ensures SysInv(Closing(x))
    ensures x.ch.open ==> AllWoken(x.sched, Closing(x).sched, x.ch.readers + x.ch.writers, EPIPE)
  {
    if x.ch.open {
      hide Inv, QuietBut, Members, CallsKept, NoDup, Delivery, AllWoken, WakeAll;
      var ch, x' := x.ch, Closing(x);
      var q := ch.readers + ch.writers;
      forall t | t in ch.readers ensures Inside(x.sched, t) && !x.sched.Current(t) && !x.sched.Queued(t) {
        WaitingReader(x, t);
      }
      forall t | t in ch.writers ensures Inside(x.sched, t) && !x.sched.Current(t) && !x.sched.Queued(t) {
        WaitingWriter(x, t);
      }
      assert q == if ch.readers == [] then ch.writers else ch.readers;
      WakeAllInv(x.sched, q, EPIPE);
      assert x'.sched == WakeAll(x.sched, q, EPIPE) by { WakeNone(x.sched, EPIPE); WakeNone(x'.sched, EPIPE); }
      ClosedOrders(ch);
      ClosedMembers(x, x');
    }
  }

  lemma WakeNone(s: State, err: Errno)
    ensures WakeAll(s, [], err) == s
  {
  }

  lemma ClosedOrders(ch: Chan)
    requires ch.open && Bounds(ch) && InOrder(ch) && CallsKept(ch)
    ensures Bounds(Closed(ch)) && InOrder(Closed(ch)) && CallsKept(Closed(ch))
  {
    hide Rising, Ids, CallsKept;
    var ch' := Closed(ch);
    assert ch'.Line() == ch.accepted;
    RisingFront(ch.accepted, ch.Offers());
    ClosedCalls(ch, ch');
  }

  lemma RisingFront(a: seq<Entry>, b: seq<Entry>)
    requires Rising(a + b)
    ensures Rising(a) && Ids(a) !! Ids(b)
  {
    forall i, j | 0 <= i < j < |a| ensures a[i].id < a[j].id {
      assert (a + b)[i] == a[i] && (a + b)[j] == a[j];
    }
    forall d, e | d in a && e in b ensures d.id != e.id {
      var i :| 0 <= i < |a| && a[i] == d;
      var j :| 0 <= j < |b| && b[j] == e;
      assert (a + b)[i] == d && (a + b)[|a| + j] == e;
    }
  }

  lemma ClosedCalls(ch: Chan, ch': Chan)
    requires CallsKept(ch) && Ids(ch.accepted) !! Ids(ch.Offers())
    requires ch'.Line() == ch.accepted && ch'.accepted == ch.accepted && ch'.calls == ch.calls
    requires ch'.refused == ch.refused + Ids(ch.Offers()) && ch'.replies == ch.replies
    ensures CallsKept(ch')
  {
    IdsJoin(ch.accepted, ch.Offers());
    RepliesKept(ch, ch');
    hide Ids;
  }

  lemma IdsJoin(a: seq<Entry>, b: seq<Entry>)
    ensures Ids(a + b) == Ids(a) + Ids(b)
  {
    forall e | e in a ensures e in a + b {
    }
    forall e | e in b ensures e in a + b {
    }
  }

  lemma ClosedMembers(x: Sys, x': Sys)
    requires Members(x) && Delivery(x) && x.ch.open && x'.ch == Closed(x.ch)
    requires AllWoken(x.sched, x'.sched, x.ch.readers + x.ch.writers, EPIPE)
    ensures Members(x') && Delivery(x')
  {
    hide QuietBut, Inv;
    var q := x.ch.readers + x.ch.writers;
    forall t | t in TasksOf(q) ensures t in x'.sched.info && MemberWell(x', t) && !Reading(x, t) && !Reading(x', t) {
      assert x'.sched.Queued(t);
      assert t in x.ch.readers || t in x.ch.writers;
      assert MemberWell(x, t);
      if t in x.ch.writers {
        OfferOf(x.ch, t);
      }
      CurrentSame(x, x', t);
    }
    MembersKept(x, x', TasksOf(q));
    DeliveryKept(x, x', TasksOf(q));
  }

  lemma CurrentSame(x: Sys, x': Sys, t: Task)
    requires x'.sched.control == x.sched.control
    ensures x.sched.Current(t) <==> x'.sched.Current(t)
  {
  }

  lemma OfferOf(ch: Chan, t: Task)
    requires t in ch.writers && t in ch.req
    ensures ch.req[t].id in Ids(ch.Offers())
  {
    var i :| 0 <= i < |ch.writers| && ch.writers[i] == t;
    assert ch.Offers()[i] == ch.req[t];
    assert ch.req[t] in ch.Offers();
  }
}
