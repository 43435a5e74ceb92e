/** The message channel of message.lua: a ring with two cursors, and two queues linked through the waiting tasks. */
module Channels {
  import opened RbShape
  import opened Tasks
  import opened TimerQueue
  import opened SchedModel
  import opened SchedInvariant
  import opened Scheduler
  import opened SchedWaits
  import opened TaskQueues
  import opened ChannelModel
  import opened ChannelInvariant
  import opened ChannelMoves
  import opened ChannelRuns

  datatype Outcome = Message(msg: Value) | Done | Failed(err: Errno) | NoRoom | Blocked | Raised

  /** What a read or a write that had blocked returns, once its do_yield has returned `r`. */
  ghost function Answered(ch: Chan, r: SchedModel.Return): Outcome {
    if !r.err.Ok? then Failed(r.err)
    else if r.wait.InRead? && r.task in ch.req then Message(ch.req[r.task].msg)
    else Done
  }

  /** A call has returned `out` from its wait, or none has. */
  ghost predicate CallReturned(ch: Chan, before: seq<SchedModel.Return>, after: seq<SchedModel.Return>, out: Option<Outcome>) {
    out.Some? ==> |after| == |before| + 1 && out.value == Answered(ch, after[|before|])
  }

  // ---------- the ring ----------

  /** The slot `i` places after slot `r` of a ring of `cap` slots, numbered from 1. */
  ghost function Slot(r: nat, i: nat, cap: nat): nat { if r + i <= cap then r + i else r + i - cap }

  ghost function Occupied(r: nat, n: nat, cap: nat): set<nat> { set i: nat | i < n :: Slot(r, i, cap) }

  /** From `r` on, as far as `w`, the ring holds the messages of `buffer`, and no other slot holds on to one. */
  ghost predicate Ring(m: map<nat, Value>, r: nat, w: nat, cap: nat, buffer: seq<Entry>) {
    && |buffer| <= cap
    && (cap > 0 ==> 1 <= r <= cap && w == Slot(r, |buffer|, cap))
    && (forall i :: 0 <= i < |buffer| ==> Slot(r, i, cap) in m && m[Slot(r, i, cap)] == buffer[i].msg)
    && (forall k :: k in m && k !in Occupied(r, |buffer|, cap) ==> m[k] == Nothing)
  }

  /** The next slot after a cursor. */
  function Next(cursor: nat, cap: nat): (c: nat)
    requires 1 <= cursor <= cap
    ensures 1 <= c <= cap
  {
    if cursor == cap then 1 else cursor + 1
  }

  lemma SlotApart(r: nat, i: nat, j: nat, cap: nat)
    requires 1 <= r <= cap && i < j < cap
    ensures Slot(r, i, cap) != Slot(r, j, cap)
  {
  }

  /** The first message is taken out. */
  lemma RingTake(m: map<nat, Value>, r: nat, w: nat, cap: nat, buffer: seq<Entry>)
    requires Ring(m, r, w, cap, buffer) && buffer != []
    ensures r in m && m[r] == buffer[0].msg
    ensures Ring(m[r := Nothing], Next(r, cap), w, cap, buffer[1..])
  {
    assert Slot(r, 0, cap) == r;
    var m', r' := m[r := Nothing], Next(r, cap);
    forall i | 0 <= i < |buffer[1..]| ensures Slot(r', i, cap) in m' && m'[Slot(r', i, cap)] == buffer[1..][i].msg {
      assert Slot(r', i, cap) == Slot(r, i + 1, cap);
      SlotApart(r, 0, i + 1, cap);
    }
    forall k | k in m' && k !in Occupied(r', |buffer[1..]|, cap) ensures m'[k] == Nothing {
      if k != r {
        forall i: nat | i < |buffer| ensures Slot(r, i, cap) != k {
          if i > 0 {
            assert Slot(r', i - 1, cap) == Slot(r, i, cap);
          }
        }
      }
    }
  }

  /** A message is put in at the end. */
  lemma RingPut(m: map<nat, Value>, r: nat, w: nat, cap: nat, buffer: seq<Entry>, e: Entry)
    requires Ring(m, r, w, cap, buffer) && |buffer| < cap
    ensures 1 <= w <= cap && Ring(m[w := e.msg], r, Next(w, cap), cap, buffer + [e])
  {
    var n, m' := |buffer|, m[w := e.msg];
    forall i | 0 <= i < n ensures Slot(r, i, cap) in m' && m'[Slot(r, i, cap)] == (buffer + [e])[i].msg {
      SlotApart(r, i, n, cap);
    }
    forall k | k in m' && k !in Occupied(r, n + 1, cap) ensures m'[k] == Nothing {
      assert w in Occupied(r, n + 1, cap);
      forall i: nat | i < n ensures Slot(r, i, cap) != k {
        assert Slot(r, i, cap) in Occupied(r, n + 1, cap);
      }
    }
  }

  /** The slots that the loop of close clears, starting from `cursor`. */
  ghost function Cleared(cursor: nat, n: nat, cap: nat): set<nat>
    decreases n
  {
    if n == 0 then {} else {cursor} + Cleared(if cursor + 1 == cap then 1 else cursor + 1, n - 1, cap)
  }

  lemma {:induction false} ClearedAhead(cursor: nat, n: nat, cap: nat)
    requires cursor + n <= cap
    ensures Cleared(cursor, n, cap) == Occupied(cursor, n, cap)
    decreases n
  {
    if n == 0 {
    } else if n == 1 {
      assert Occupied(cursor, 1, cap) == {cursor} by { assert Slot(cursor, 0, cap) == cursor; }
    } else {
      ClearedAhead(cursor + 1, n - 1, cap);
      assert Occupied(cursor, n, cap) == {cursor} + Occupied(cursor + 1, n - 1, cap) by {
        forall i: nat | i < n ensures Slot(cursor, i, cap) in {cursor} + Occupied(cursor + 1, n - 1, cap) {
          if i > 0 {
            assert Slot(cursor + 1, i - 1, cap) == Slot(cursor, i, cap);
          }
        }
        forall k | k in Occupied(cursor + 1, n - 1, cap) ensures k in Occupied(cursor, n, cap) {
          var i: nat :| i < n - 1 && Slot(cursor + 1, i, cap) == k;
          assert Slot(cursor, i + 1, cap) == k;
        }
        assert Slot(cursor, 0, cap) in Occupied(cursor, n, cap);
      }
    }
  }

  /** The loop wraps round before the last slot, which it never clears unless it starts there. */
  lemma {:induction false} ClearedNeverLast(cursor: nat, n: nat, cap: nat)
    requires 1 <= cursor < cap
    ensures cap !in Cleared(cursor, n, cap)
    decreases n
  {
    if n > 0 {
      ClearedNeverLast(if cursor + 1 == cap then 1 else cursor + 1, n - 1, cap);
    }
  }

  /** A loop that starts at the last slot runs on behind it. */
  lemma {:induction false} ClearedAbove(cursor: nat, n: nat, cap: nat)
    requires cursor >= cap >= 1
    ensures forall k :: k in Cleared(cursor, n, cap) ==> k >= cap
    decreases n
  {
    if n > 0 {
      ClearedAbove(cursor + 1, n - 1, cap);
    }
  }

  /** close clears just the slots that hold messages if and only if these end before the last slot, or
    there is at most one of them. */
  lemma CloseClears(r: nat, n: nat, cap: nat)
    requires 1 <= r <= cap && n <= cap
    ensures Cleared(r, n, cap) == Occupied(r, n, cap) <==> n <= 1 || r + n <= cap
  {
    if r + n <= cap {
      ClearedAhead(r, n, cap);
    } else if n == 1 {
      assert Cleared(r, 1, cap) == {r};
      assert Occupied(r, 1, cap) == {r} by { assert Slot(r, 0, cap) == r; }
    } else if r < cap {
      ClearedNeverLast(r, n, cap);
      assert Slot(r, cap - r, cap) in Occupied(r, n, cap);
    } else {
      assert cap + 1 in Cleared(r, n, cap);
      forall i: nat | i < n ensures Slot(r, i, cap) != cap + 1 {
      }
    }
  }

  /** What close makes of the ring `m` of `n` messages from slot `r` on: the slots of its loop are emptied, the
    others stay as they are. */
  ghost predicate RingCleared(m: map<nat, Value>, m': map<nat, Value>, r: nat, n: nat, cap: nat) {
    && m'.Keys == m.Keys + Cleared(r, n, cap)
    && forall k :: k in m' ==> if k in Cleared(r, n, cap) then m'[k] == Nothing else m'[k] == m[k]
  }

  /** So no message is left in the ring if and only if they end before the last slot, or there was at most one. */
  lemma CloseEmpties(m: map<nat, Value>, m': map<nat, Value>, r: nat, w: nat, cap: nat, buffer: seq<Entry>)
    requires Ring(m, r, w, cap, buffer) && RingCleared(m, m', r, |buffer|, cap) && forall e :: e in buffer ==> e.msg != Nothing
    ensures (forall k :: k in m' ==> m'[k] == Nothing) <==> |buffer| <= 1 || r + |buffer| <= cap
  {
    var n := |buffer|;
    if n > 0 {
      hide Cleared;
      CloseClears(r, n, cap);
      if r + n > cap && n > 1 {
        var i: nat := if r < cap then cap - r else 1;
        if r < cap {
          ClearedNeverLast(r, n, cap);
        } else {
          ClearedAbove(r, n, cap);
        }
        var k := Slot(r, i, cap);
        assert k in m && m[k] == buffer[i].msg && buffer[i] in buffer;
        assert k !in Cleared(r, n, cap) && m'[k] == m[k];
      }
    }
  }

  /** A channel comes to such a ring: two messages fill a ring of two slots, one is read, a third takes its slot. */
  lemma RingWraps(a: Entry, b: Entry, c: Entry) returns (m: map<nat, Value>)
    ensures Ring(m, 2, 2, 2, [b, c]) && m == map[1 := c.msg, 2 := b.msg]
    ensures forall m' :: RingCleared(m, m', 2, 2, 2) ==> 1 in m' && m'[1] == c.msg
  {
    var m1 := map[1 := a.msg];
    RingPut(map[], 1, 1, 2, [], a);
    RingPut(m1, 1, 2, 2, [a], b);
    RingTake(m1[2 := b.msg], 1, 1, 2, [a, b]);
    RingPut(m1[2 := b.msg][1 := Nothing], 2, 1, 2, [b], c);
    m := m1[2 := b.msg][1 := Nothing][1 := c.msg];
    ClearedAbove(2, 2, 2);
  }

  /** The messages held by tasks: those of waiting writers, and those handed to readers. */
  ghost function Carried(x: Sys): map<Task, Value> {
    map t | t in x.ch.req && (t in x.ch.writers || Reading(x, t)) :: x.ch.req[t].msg
  }

  class Channel {
    const cap: nat
    const sched: Tasklet
    var num: int
    var rcursor: nat
    var wcursor: nat
    var msgring: map<nat, Value>
    var rtaskq: Head
    var wtaskq: Head
    ghost var ch: Chan

    ghost predicate QueuesAre(c: Chan)
      reads `rtaskq, `wtaskq, sched`tasks, sched.tasks`svcPrev, sched.tasks`svcNext
    {
      if c.open then Queue(rtaskq, c.readers) && Queue(wtaskq, c.writers) else rtaskq.Shut? && wtaskq.Shut?
    }

    ghost predicate RingIs(c: Chan)
      reads `num, `rcursor, `wcursor, `msgring
    {
      c.cap == cap && if c.open then num == |c.buffer| && Ring(msgring, rcursor, wcursor, cap, c.buffer) else num == -1
    }

    /** `t_svcreq` holds the message of the task. */
    ghost predicate Carries(m: map<Task, Value>)
      reads sched`tasks, sched.tasks`svcReq
    {
      forall t :: t in m ==> t in sched.tasks && t.svcReq == m[t]
    }

    ghost function Now(): Sys
      reads `ch, sched`st
    {
      Sys(sched.st, ch)
    }

    ghost predicate Valid()
      reads this, sched, sched.timers, sched.timers.sentinel, sched.timers.nodes, sched.tasks
    {
      sched.Valid() && SysInv(Now()) && QueuesAre(ch) && RingIs(ch) && Carries(Carried(Now()))
    }

    /** A channel of its own scheduler, before anything else uses that. */
    constructor (cap: nat, now: real)
      ensures Valid() && Now() == Opened(now, cap)
      ensures fresh(sched) && fresh(sched.timers) && fresh(sched.timers.sentinel)
    {
      this.cap := cap;
      sched := new Tasklet(now);
      num, rcursor, wcursor := 0, 1, 1;
      msgring := map[];
      rtaskq, wtaskq := NoTask, NoTask;
      ch := Opened(now, cap).ch;
      new;
      hide Valid, Tasklet.Valid;
      StartsValid(now);
    }

    lemma StartsValid(now: real)
      requires sched.Valid() && Now() == Opened(now, cap)
      requires num == 0 && rcursor == 1 && wcursor == 1 && msgring == map[] && rtaskq.NoTask? && wtaskq.NoTask?
      ensures Valid()
    {
      hide SysInv, Tasklet.Valid;
      OpenedInv(now, cap);
    }

    // ---------- the queues ----------

    ghost predicate Queue(head: Head, q: seq<Task>)
      reads sched`tasks, sched.tasks`svcPrev, sched.tasks`svcNext
    {
      Linked(sched.tasks, head, q)
    }

    // ---------- write and post ----------

    /** A message is put into the ring. */
    method Store(msg: Value)
      requires Valid() && ch.open && ch.readers == [] && |ch.buffer| < cap
      modifies `msgring, `wcursor, `num, `ch
      ensures Valid() && Now() == Accept(Sys(sched.st, Numbered(old(ch))), Entry(old(ch).calls, msg))
    {
      hide SysInv, Tasklet.Holds, Inv, Queue, Accept, Ring;
      ghost var x, e := Now(), Entry(ch.calls, msg);
      StoredInv(x, e);
      Stored(x, e);
      RingPut(msgring, rcursor, wcursor, cap, ch.buffer, e);
      msgring := msgring[wcursor := msg];
      wcursor := Next(wcursor, cap);
      num := num + 1;
      ch := Accept(Sys(sched.st, Numbered(ch)), e).ch;
    }

    lemma Stored(x: Sys, e: Entry)
      requires x.ch.readers == [] && |x.ch.buffer| < x.ch.cap
      ensures var x' := Accept(Sys(x.sched, Numbered(x.ch)), e);
        && x'.sched == x.sched && x'.ch.buffer == x.ch.buffer + [e] && x'.ch.readers == x.ch.readers && x'.ch.writers == x.ch.writers
        && x'.ch.open == x.ch.open && x'.ch.cap == x.ch.cap && Carried(x') == Carried(x)
    {
    }

    /** A message goes to the first waiting reader, which is woken. */
    method HandOver(head: Task, msg: Value)
      requires Valid() && rtaskq == First(head)
      modifies this, sched, sched.timers, sched.timers.sentinel, sched.tasks
      ensures Valid() && old(ch).readers != [] && Now() == Accept(Sys(old(sched.st), Numbered(old(ch))), Entry(old(ch).calls, msg))
    {
      hide SysInv, Tasklet.Valid, QueuesAre, Carries, Accept, Ring, Wake, Carried;
      ghost var x, e := Now(), Entry(ch.calls, msg);
      ReaderFirst(x);
      HandedInv(x, e);
      HandedState(x, e);
      sched.SentinelApart();
      Serve(head, msg, x.ch, Carried(x));
      sched.WakeTask(head, Ok);
      ch := Accept(Sys(x.sched, Numbered(x.ch)), e).ch;
      QueuesSame(x.ch.(readers := x.ch.readers[1..]), ch);
      CarriesLess(Carried(x)[head := msg], Carried(Now()));
    }

    /** The first waiting reader leaves its queue with a message. */
    method Serve(head: Task, msg: Value, ghost c: Chan, ghost m: map<Task, Value>)
      requires QueuesAre(c) && c.open && c.readers != [] && c.writers == [] && NoDup(c.readers) && rtaskq == First(head) && Carries(m)
      modifies `rtaskq, sched.tasks`svcPrev, sched.tasks`svcReq
      ensures QueuesAre(c.(readers := c.readers[1..])) && Carries(m[head := msg])
    {
      hide NoDup;
      assert head in c.readers;
      rtaskq := PopTask(head, sched.tasks, c.readers);
      head.svcReq := msg;
    }

    lemma QueuesSame(c: Chan, c': Chan)
      requires QueuesAre(c) && c'.readers == c.readers && c'.writers == c.writers && c'.open == c.open
      ensures QueuesAre(c')
    {
    }

    lemma CarriesLess(m: map<Task, Value>, m': map<Task, Value>)
      requires Carries(m) && forall t :: t in m' ==> t in m && m'[t] == m[t]
      ensures Carries(m')
    {
    }

    /** The first of the waiting readers. */
    lemma ReaderFirst(x: Sys)
      requires x == Now() && Valid() && rtaskq.First?
      ensures x.ch.open && x.ch.readers != [] && x.ch.writers == [] && NoDup(x.ch.readers)
      ensures var h := x.ch.readers[0];
        && rtaskq == First(h) && h in sched.tasks && Inside(x.sched, h) && x.sched.info[h].frame.value.wait.InRead?
        && !x.sched.Current(h) && !x.sched.Queued(h) && !x.sched.Joining(h) && h !in x.ch.req
    {
      hide Tasklet.Holds, Inv, NoDup;
      WaitingReader(x, x.ch.readers[0]);
    }

    lemma HandedState(x: Sys, e: Entry)
      requires SysInv(x) && x.ch.readers != []
      ensures var x', h := Accept(Sys(x.sched, Numbered(x.ch)), e), x.ch.readers[0];
        && x'.sched == Wake(x.sched, h, Ok) && x'.ch.buffer == x.ch.buffer && x'.ch.readers == x.ch.readers[1..] && x'.ch.writers == x.ch.writers
        && x'.ch.open == x.ch.open && x'.ch.cap == x.ch.cap
        && (forall t :: t in Carried(x') ==> if t == h then Carried(x')[t] == e.msg else t in Carried(x) && Carried(x')[t] == Carried(x)[t])
    {
      hide Inv, Wake;
      var h, s' := x.ch.readers[0], Wake(x.sched, x.ch.readers[0], Ok);
      WaitingReader(x, h);
      WakeMember(x.sched, h, Ok);
      var x' := Accept(Sys(x.sched, Numbered(x.ch)), e);
      forall t | t in Carried(x') && t != h ensures t in Carried(x) {
        assert t in x.ch.req && t in x.sched.info;
        assert Same(x.sched, s', t);
      }
    }

    /** What the fields say of the channel. */
    lemma Fields()
      requires Valid()
      ensures rtaskq.Shut? <==> !ch.open
      ensures wtaskq.Shut? <==> !ch.open
      ensures rtaskq.First? <==> ch.readers != []
      ensures wtaskq.First? <==> ch.writers != []
      ensures ch.cap == cap && num == if ch.open then |ch.buffer| else -1
    {
      hide Tasklet.Valid, Inv, Members, InOrder, CallsKept, Delivery, Ring;
    }

    /** A call on a closed channel. */
    ghost method Refuse()
      requires Valid() && !ch.open
      modifies `ch
      ensures Valid() && Now() == Sys(sched.st, Replied(Numbered(old(ch)), old(ch).calls, EPIPE))
    {
      hide SysInv, Tasklet.Holds, Inv;
      ghost var x := Now();
      RefusedInv(x);
      ch := Replied(Numbered(ch), ch.calls, EPIPE);
      assert Carried(Now()) == Carried(x);
    }

    /** The current task waits for room, with its message at hand. */
    method WaitToWrite(msg: Value, sec: Option<real>)
      requires Valid() && sched.st.control.Running? && Fair(Now(), DoWrite(msg, sec))
      requires ch.open && ch.readers == [] && |ch.buffer| >= cap
      modifies this, sched, sched.timers, sched.tasks
      ensures Valid() && Now() == ChannelModel.Write(old(Now()), msg, sec)
      ensures WaitsFor(sched.st, old(sched.st).control.task, old(sched.st).now, sec)
    {
      hide SysInv, Tasklet.Valid, QueuesAre, Carries, Ring, Yield, Carried, NoDup, WaitsFor, Fair, ChannelModel.Write;
      ghost var x := Now();
      Fields();
      var current := CurrentTask();
      BlockedWriteInv(x, msg, sec);
      WaitingState(x, msg, sec);
      sched.SentinelApart();
      Line(current, msg, x.ch, Carried(x));
      GivesUp(x, DoWrite(msg, sec), sec, InWrite);
      var _ := sched.Block(sec, false, InWrite);
      ch := ChannelModel.Write(x, msg, sec).ch;
      QueuesSame(x.ch.(writers := x.ch.writers + [current]), ch);
      CarriesLess(Carried(x)[current := msg], Carried(Now()));
    }

    lemma GivesUp(x: Sys, m: Move, sec: Option<real>, wait: Wait)
      requires SysInv(x) && x.sched.control.Running? && !wait.InJoin? && Fair(x, m) && (m.DoRead? || m.DoWrite?)
      ensures Yield(x.sched, sec, false, wait).control.Idle?
    {
      hide Members, Delivery, InOrder, CallsKept;
      NotInside(x.sched);
    }

    method CurrentTask() returns (t: Task)
      requires Valid() && sched.st.control.Running?
      ensures t == sched.st.control.task && t in sched.tasks && t !in ch.readers && t !in ch.writers && t !in ch.req
      ensures NoDup(ch.readers) && NoDup(ch.writers)
    {
      hide Tasklet.Holds, Inv, InOrder, CallsKept, Delivery, NoDup;
      sched.InControl(sched.st);
      NotInside(sched.st);
      Outsider(Now(), sched.st.control.task);
      t := sched.current;
    }

    /** A task goes to the end of the queue of writers. */
    method Line(task: Task, msg: Value, ghost c: Chan, ghost m: map<Task, Value>)
      requires QueuesAre(c) && c.open && c.readers == [] && NoDup(c.writers) && task !in c.writers && task in sched.tasks && Carries(m)
      modifies `wtaskq, sched.tasks`svcPrev, sched.tasks`svcNext, sched.tasks`svcReq
      ensures QueuesAre(c.(writers := c.writers + [task])) && Carries(m[task := msg])
    {
      hide NoDup;
      wtaskq := PushTask(wtaskq, task, sched.tasks, c.writers);
      task.svcReq := msg;
    }

    lemma WaitingState(x: Sys, msg: Value, sec: Option<real>)
      requires SysInv(x) && Fair(x, DoWrite(msg, sec)) && x.sched.control.Running? && x.ch.open && x.ch.readers == [] && |x.ch.buffer| >= x.ch.cap
      ensures var x', t := ChannelModel.Write(x, msg, sec), x.sched.control.task;
        && x'.sched == Yield(x.sched, sec, false, InWrite) && x'.ch.readers == [] && x'.ch.writers == x.ch.writers + [t]
        && x'.ch.open && x'.ch.buffer == x.ch.buffer && x'.ch.cap == x.ch.cap
        && (forall u :: u in Carried(x') ==> if u == t then Carried(x')[u] == msg else u in Carried(x) && Carried(x')[u] == Carried(x)[u])
    {
      hide Inv, Yield;
      YieldMember(x.sched, sec, InWrite);
      var x' := ChannelModel.Write(x, msg, sec);
      forall u | u in Carried(x') && u != x.sched.control.task ensures u in Carried(x) {
        assert u in x.ch.req && u in x.sched.info;
        assert Same(x.sched, x'.sched, u);
      }
    }

    method Write(msg: Value, sec: Option<real>) returns (out: Outcome)
      requires Valid() && sched.st.control.Running? && Fair(Now(), DoWrite(msg, sec))
      modifies this, sched, sched.timers, sched.timers.sentinel, sched.tasks
      ensures Valid() && Now() == ChannelModel.Write(old(Now()), msg, sec)
      ensures out.Blocked? ==> WaitsFor(sched.st, old(sched.st).control.task, old(sched.st).now, sec)
      ensures out == if !old(ch).open then Failed(EPIPE) else if old(ch).readers != [] || |old(ch).buffer| < cap then Done else Blocked
    {
      hide SysInv, Valid, Accept, Yield, Replied;
      Fields();
      if rtaskq.Shut? {
        Refuse();
        return Failed(EPIPE);
      } else if rtaskq.First? {
        HandOver(rtaskq.task, msg);
        return Done;
      } else if cap > 0 && num < cap {
        Store(msg);
        return Done;
      }
      WaitToWrite(msg, sec);
      return Blocked;
    }

    /** On a closed channel the assertion about the queue of writers fails; on an open one it cannot. */
    method Post(msg: Value) returns (out: Outcome)
      requires Valid()
      modifies this, sched, sched.timers, sched.timers.sentinel, sched.tasks
      ensures Valid() && Now() == ChannelModel.Post(old(Now()), msg)
      ensures out == if !old(ch).open then Raised else if old(ch).readers != [] || |old(ch).buffer| < cap then Done else NoRoom
    {
      hide SysInv, Valid, Accept, Yield, Replied;
      Fields();
      if !rtaskq.NoTask? {
        if !wtaskq.NoTask? {
          RaisedOnlyClosed();
          Refuse();
          return Raised;
        }
        HandOver(rtaskq.task, msg);
        return Done;
      } else if cap > 0 && num < cap {
        Store(msg);
        return Done;
      }
      Decline();
      return NoRoom;
    }

    /** With a reader waiting on an open channel, nobody waits to write. */
    lemma RaisedOnlyClosed()
      requires Valid() && !rtaskq.NoTask? && !wtaskq.NoTask?
      ensures !ch.open
    {
      hide Tasklet.Valid, Inv, Members, InOrder, CallsKept, Delivery, Ring;
    }

    /** A post finds no room. */
    ghost method Decline()
      requires Valid() && ch.open && ch.readers == [] && |ch.buffer| >= cap
      modifies `ch
      ensures Valid() && Now() == Sys(sched.st, Replied(Numbered(old(ch)), old(ch).calls, EPIPE))
    {
      hide SysInv, Tasklet.Holds, Inv, Queue, Ring;
      ghost var x := Now();
      RefusedInv(x);
      ch := Replied(Numbered(ch), ch.calls, EPIPE);
      assert Carried(Now()) == Carried(x);
    }

    // ---------- read ----------

    /** The message at the read cursor leaves the ring. */
    method TakeOut(ghost buffer: seq<Entry>) returns (msg: Value)
      requires buffer != [] && Ring(msgring, rcursor, wcursor, cap, buffer)
      modifies `msgring, `rcursor
      ensures msg == buffer[0].msg && Ring(msgring, rcursor, wcursor, cap, buffer[1..])
    {
      RingTake(msgring, rcursor, wcursor, cap, buffer);
      msg := msgring[rcursor];
      msgring := msgring[rcursor := Nothing];
      rcursor := Next(rcursor, cap);
    }

    method PutIn(msg: Value, ghost buffer: seq<Entry>, ghost e: Entry)
      requires |buffer| < cap && Ring(msgring, rcursor, wcursor, cap, buffer) && msg == e.msg
      modifies `msgring, `wcursor
      ensures Ring(msgring, rcursor, wcursor, cap, buffer + [e])
    {
      RingPut(msgring, rcursor, wcursor, cap, buffer, e);
      msgring := msgring[wcursor := msg];
      wcursor := Next(wcursor, cap);
    }

    /** One message leaves the ring, another comes in. */
    method ShiftRing(next: Value, ghost buffer: seq<Entry>, ghost e: Entry) returns (msg: Value)
      requires buffer != [] && |buffer| <= cap && Ring(msgring, rcursor, wcursor, cap, buffer) && next == e.msg
      modifies `msgring, `rcursor, `wcursor
      ensures msg == buffer[0].msg && Ring(msgring, rcursor, wcursor, cap, buffer[1..] + [e])
    {
      hide Ring;
      msg := TakeOut(buffer);
      PutIn(next, buffer[1..], e);
    }

    /** A message is read from the ring, and nobody waits to write. */
    method ReadRing() returns (msg: Value)
      requires Valid() && ch.open && ch.buffer != [] && ch.writers == [] && sched.st.control.Running?
      modifies `msgring, `rcursor, `num, `ch
      ensures Valid() && Now() == ChannelModel.Read(old(Now()), None) && msg == old(ch).buffer[0].msg
    {
      hide SysInv, Tasklet.Holds, Inv, Queue, Ring;
      ghost var x, t := Now(), sched.st.control.task;
      ReadRingInv(x, t);
      msg := TakeOut(ch.buffer);
      num := num - 1;
      ch := Given(ch.(buffer := ch.buffer[1..]), t, ch.buffer[0]);
      assert Carried(Now()) == Carried(x);
    }

    /** The first of the waiting writers. */
    lemma WriterFirst(x: Sys)
      requires x == Now() && Valid() && wtaskq.First?
      ensures x.ch.open && x.ch.writers != [] && x.ch.readers == [] && NoDup(x.ch.writers) && |x.ch.buffer| <= cap
      ensures var h := x.ch.writers[0];
        && wtaskq == First(h) && h in sched.tasks && Inside(x.sched, h) && x.sched.info[h].frame.value.wait.InWrite?
        && !x.sched.Current(h) && !x.sched.Queued(h) && !x.sched.Joining(h) && h in x.ch.req && h.svcReq == x.ch.Offers()[0].msg
    {
      hide Tasklet.Holds, Inv, NoDup;
      WaitingWriter(x, x.ch.writers[0]);
      assert x.ch.writers[0] in Carried(x);
    }

    /** The first waiting writer leaves its queue. */
    method Admit(head: Task, ghost c: Chan)
      requires QueuesAre(c) && c.open && c.writers != [] && c.readers == [] && NoDup(c.writers) && wtaskq == First(head)
      modifies `wtaskq, sched.tasks`svcPrev
      ensures QueuesAre(c.(writers := c.writers[1..]))
    {
      hide NoDup;
      wtaskq := PopTask(head, sched.tasks, c.writers);
    }

    /** The first waiting writer is woken and leaves its queue. */
    method Release(head: Task, ghost x: Sys)
      requires sched.Valid() && x.sched == sched.st && head in sched.tasks
      requires sched.st.Alive(head) && !sched.st.Current(head) && !sched.st.Joining(head)
      requires QueuesAre(x.ch) && x.ch.open && x.ch.writers != [] && x.ch.readers == [] && NoDup(x.ch.writers) && wtaskq == First(head)
      requires Carries(Carried(x))
      modifies `wtaskq, sched, sched.timers, sched.timers.sentinel, sched.tasks
      ensures sched.Valid() && sched.st == Wake(x.sched, head, Ok) && sched.tasks == old(sched.tasks)
      ensures QueuesAre(x.ch.(writers := x.ch.writers[1..])) && Carries(Carried(x))
    {
      hide Tasklet.Valid, QueuesAre, Carries, Wake, Carried, NoDup;
      sched.SentinelApart();
      sched.WakeTask(head, Ok);
      Admit(head, x.ch);
    }

    lemma AdmittedState(x: Sys, x': Sys)
      requires SysInv(x) && x.ch.writers != [] && x.ch.readers == []
      requires x'.sched == Wake(x.sched, x.ch.writers[0], Ok) && x'.ch.writers == x.ch.writers[1..] && x'.ch.req == x.ch.req
      ensures forall u :: u in Carried(x') ==> u != x.ch.writers[0] && u in Carried(x) && Carried(x')[u] == Carried(x)[u]
    {
      hide Inv, Wake;
      var h := x.ch.writers[0];
      Tail(x.ch.writers);
      WaitingWriter(x, h);
      WakeMember(x.sched, h, Ok);
      forall u | u in Carried(x') ensures u != h && u in Carried(x) {
        assert u in x.ch.req && u in x.sched.info;
        if u != h {
          assert Same(x.sched, x'.sched, u);
        }
      }
    }

    /** A message is read from the ring, and that of the first waiting writer moves up. */
    method ReadShift() returns (msg: Value)
      requires Valid() && ch.open && ch.buffer != [] && ch.writers != [] && sched.st.control.Running?
      modifies this, sched, sched.timers, sched.timers.sentinel, sched.tasks
      ensures Valid() && Now() == ChannelModel.Read(old(Now()), None) && msg == old(ch).buffer[0].msg
    {
      hide SysInv, Tasklet.Valid, QueuesAre, Carries, Ring, Wake, Carried;
      ghost var x := Now();
      Fields();
      var head := wtaskq.task;
      WriterFirst(x);
      ReadShiftInv(x, x.sched.control.task);
      msg := ShiftRing(head.svcReq, ch.buffer, ch.Offers()[0]);
      Release(head, x);
      ch := ChannelModel.Read(x, None).ch;
      AdmittedState(x, Now());
      QueuesSame(x.ch.(writers := x.ch.writers[1..]), ch);
      CarriesLess(Carried(x), Carried(Now()));
    }

    /** The request of a task is cleared. */
    method Forget(task: Task, ghost m: map<Task, Value>)
      requires Carries(m)
      modifies task`svcReq
      ensures Carries(m - {task})
    {
      task.svcReq := Nothing;
    }

    /** Without a ring, the message is that of the first waiting writer. */
    method ReadDirect() returns (msg: Value)
      requires Valid() && ch.open && ch.buffer == [] && ch.writers != [] && sched.st.control.Running?
      modifies this, sched, sched.timers, sched.timers.sentinel, sched.tasks
      ensures Valid() && Now() == ChannelModel.Read(old(Now()), None) && msg == old(ch).Offers()[0].msg
    {
      hide SysInv, Tasklet.Valid, QueuesAre, Carries, Ring, Wake, Carried;
      ghost var x := Now();
      Fields();
      var head := wtaskq.task;
      WriterFirst(x);
      ReadDirectInv(x, x.sched.control.task);
      msg := head.svcReq;
      Release(head, x);
      Forget(head, Carried(x));
      ch := ChannelModel.Read(x, None).ch;
      AdmittedState(x, Now());
      QueuesSame(x.ch.(writers := x.ch.writers[1..]), ch);
      CarriesLess(Carried(x) - {head}, Carried(Now()));
    }

    /** The current task waits for a message. */
    method WaitToRead(sec: Option<real>)
      requires Valid() && sched.st.control.Running? && Fair(Now(), DoRead(sec)) && ch.open && ch.buffer == [] && ch.writers == []
      modifies this, sched, sched.timers, sched.tasks
      ensures Valid() && Now() == ChannelModel.Read(old(Now()), sec)
      ensures WaitsFor(sched.st, old(sched.st).control.task, old(sched.st).now, sec)
    {
      hide SysInv, Tasklet.Valid, QueuesAre, Carries, Ring, Yield, Carried, WaitsFor, Fair, ChannelModel.Read;
      ghost var x := Now();
      Fields();
      var current := CurrentTask();
      BlockedReadInv(x, sec);
      WaitingReadState(x, sec);
      sched.SentinelApart();
      LineToRead(current, x.ch);
      GivesUp(x, DoRead(sec), sec, InRead);
      var _ := sched.Block(sec, false, InRead);
      ch := ChannelModel.Read(x, sec).ch;
      QueuesSame(x.ch.(readers := x.ch.readers + [current]), ch);
      CarriesLess(Carried(x), Carried(Now()));
    }

    /** A task goes to the end of the queue of readers. */
    method LineToRead(task: Task, ghost c: Chan)
      requires QueuesAre(c) && c.open && c.writers == [] && NoDup(c.readers) && task !in c.readers && task in sched.tasks
      modifies `rtaskq, sched.tasks`svcPrev, sched.tasks`svcNext
      ensures QueuesAre(c.(readers := c.readers + [task]))
    {
      hide NoDup;
      rtaskq := PushTask(rtaskq, task, sched.tasks, c.readers);
    }

    lemma WaitingReadState(x: Sys, sec: Option<real>)
      requires SysInv(x) && Fair(x, DoRead(sec)) && x.sched.control.Running? && x.ch.open && x.ch.buffer == [] && x.ch.writers == []
      ensures var x', t := ChannelModel.Read(x, sec), x.sched.control.task;
        && x'.sched == Yield(x.sched, sec, false, InRead) && x'.ch == x.ch.(readers := x.ch.readers + [t])
        && (forall u :: u in Carried(x') ==> u in Carried(x) && Carried(x')[u] == Carried(x)[u])
    {
      hide Inv, Yield;
      YieldMember(x.sched, sec, InRead);
      Outsider(x, x.sched.control.task);
      var x' := ChannelModel.Read(x, sec);
      forall u | u in Carried(x') ensures u in Carried(x) {
        assert u in x.ch.req && u in x.sched.info && u != x.sched.control.task;
        assert Same(x.sched, x'.sched, u);
      }
    }

    method Read(sec: Option<real>) returns (out: Outcome)
      requires Valid() && sched.st.control.Running? && Fair(Now(), DoRead(sec))
      modifies this, sched, sched.timers, sched.timers.sentinel, sched.tasks
      ensures Valid() && Now() == ChannelModel.Read(old(Now()), sec)
      ensures out.Blocked? ==> WaitsFor(sched.st, old(sched.st).control.task, old(sched.st).now, sec)
      ensures !old(ch).open ==> out == Failed(EPIPE)
      ensures old(ch).open && old(ch).buffer == [] && old(ch).writers == [] ==> out == Blocked
      ensures old(ch).open && (old(ch).buffer != [] || old(ch).writers != []) ==>
        |ch.returned| == |old(ch).returned| + 1 && out == Message(ch.returned[|old(ch).returned|].entry.msg)
    {
      hide SysInv, Valid, Yield, Wake;
      Fields();
      if num < 0 {
        return Failed(EPIPE);
      } else if num > 0 {
        var msg;
        if wtaskq.First? {
          msg := ReadShift();
        } else {
          msg := ReadRing();
        }
        return Message(msg);
      } else if wtaskq.First? {
        var msg := ReadDirect();
        return Message(msg);
      }
      WaitToRead(sec);
      return Blocked;
    }

    // ---------- close ----------

    ghost predicate Waiters(s: State, q: seq<Task>) {
      forall t :: t in q ==> Inside(s, t) && !s.Current(t) && !s.Queued(t)
    }

    lemma WaitersStep(s: State, q: seq<Task>, i: nat, err: Errno)
      requires i < |q| && NoDup(q) && Waiters(s, q[i..])
      ensures var s1 := Wake(s, q[i], err);
        && s.Alive(q[i]) && !s.Current(q[i]) && !s.Joining(q[i])
        && Waiters(s1, q[i + 1..]) && WakeAll(s, q[i..], err) == WakeAll(s1, q[i + 1..], err)
    {
      assert q[i..][0] == q[i] && q[i..][1..] == q[i + 1..] && q[i] in q[i..];
      forall t | t in q[i + 1..] ensures Inside(Wake(s, q[i], err), t) && !Wake(s, q[i], err).Current(t) && !Wake(s, q[i], err).Queued(t) {
        var j :| 0 <= j < |q[i + 1..]| && q[i + 1..][j] == t;
        assert q[i] != q[i + 1 + j] && q[i..][j + 1] == t;
        WakeOthers(s, q[i], t, err);
      }
    }

    lemma NextTask(head: Head, q: seq<Task>, i: nat)
      requires Queue(head, q) && i < |q|
      ensures q[i] in sched.tasks && q[i].svcNext == if i + 1 < |q| then q[i + 1] else null
    {
      NextOf(sched.tasks, head, q, i);
    }

    /** All the tasks of a queue are woken. */
    method WakeQueue(head: Head, ghost q: seq<Task>, err: Errno)
      requires sched.Valid() && Queue(head, q) && NoDup(q) && Waiters(sched.st, q)
      modifies sched`readyList, sched`st, sched.timers, sched.timers.sentinel
      modifies sched.tasks`left, sched.tasks`right, sched.tasks`parent, sched.tasks`color, sched.tasks`key
      modifies sched.tasks`prev, sched.tasks`next, sched.tasks`err
      ensures sched.Valid() && sched.st == WakeAll(old(sched.st), q, err)
    {
      hide Tasklet.Valid, NoDup, Waiters, WakeAll, Wake, Queue;
      sched.SentinelApart();
      Ends(head, q);
      var t := if head.First? then head.task else null;
      ghost var i := 0;
      assert q[0..] == q;
      while t != null
        invariant i <= |q| && t == (if i < |q| then q[i] else null)
        invariant sched.Valid() && Queue(head, q)
        invariant Waiters(sched.st, q[i..]) && WakeAll(sched.st, q[i..], err) == WakeAll(old(sched.st), q, err)
        decreases |q| - i
      {
        NextTask(head, q, i);
        WaitersStep(sched.st, q, i, err);
        sched.SentinelApart();
        sched.WakeTask(t, err);
        t := t.svcNext;
        i := i + 1;
      }
      assert q[i..] == [];
      WakeNone(sched.st, err);
    }

    lemma Ends(head: Head, q: seq<Task>)
      requires Queue(head, q)
      ensures if q == [] then !head.First? else head == First(q[0])
    {
    }

    /** The loop that clears the ring. */
    method ClearSlots(n: nat)
      modifies `msgring
      ensures RingCleared(old(msgring), msgring, rcursor, n, cap)
    {
      var cursor, num := rcursor, n;
      while num > 0
        invariant msgring.Keys + Cleared(cursor, num, cap) == old(msgring).Keys + Cleared(rcursor, n, cap)
        invariant Cleared(cursor, num, cap) <= Cleared(rcursor, n, cap)
        invariant forall k :: k in msgring && k !in Cleared(cursor, num, cap) ==>
          if k in Cleared(rcursor, n, cap) then msgring[k] == Nothing else k in old(msgring) && msgring[k] == old(msgring)[k]
      {
        msgring := msgring[cursor := Nothing];
        cursor := cursor + 1;
        if cursor == cap {
          cursor := 1;
        }
        num := num - 1;
      }
    }

    lemma ClosedState(x: Sys)
      requires SysInv(x) && x.ch.open
      ensures NoDup(x.ch.readers) && NoDup(x.ch.writers)
      ensures Waiters(x.sched, x.ch.readers) && Waiters(WakeAll(x.sched, x.ch.readers, EPIPE), x.ch.writers)
      ensures forall u :: u in Carried(Closing(x)) ==> u in Carried(x) && Carried(Closing(x))[u] == Carried(x)[u]
    {
      hide Inv, WakeAll, NoDup, CallsKept, InOrder, Delivery;
      forall t | t in x.ch.readers ensures Inside(x.sched, t) && !x.sched.Current(t) && !x.sched.Queued(t) {
        WaitingReader(x, t);
      }
      forall t | t in x.ch.writers ensures Inside(x.sched, t) && !x.sched.Current(t) && !x.sched.Queued(t) {
        WaitingWriter(x, t);
      }
      WakeNone(x.sched, EPIPE);
      CloseInv(x);
      var x' := Closing(x);
      forall u | u in Carried(x') ensures u in Carried(x) {
        assert u in x.ch.req && u in x.sched.info && MemberWell(x, u);
        if u !in TasksOf(x.ch.readers + x.ch.writers) {
          assert Same(x.sched, x'.sched, u);
        }
      }
    }

    /** Both queues are given up, and their tasks woken. */
    method Disband(ghost c: Chan, ghost m: map<Task, Value>)
      requires sched.Valid() && QueuesAre(c) && Carries(m) && c.open && NoDup(c.readers) && NoDup(c.writers)
      requires Waiters(sched.st, c.readers) && Waiters(WakeAll(sched.st, c.readers, EPIPE), c.writers)
      modifies `rtaskq, `wtaskq, sched`readyList, sched`st, sched.timers, sched.timers.sentinel
      modifies sched.tasks`left, sched.tasks`right, sched.tasks`parent, sched.tasks`color, sched.tasks`key
      modifies sched.tasks`prev, sched.tasks`next, sched.tasks`err
      ensures sched.Valid() && sched.st == WakeAll(WakeAll(old(sched.st), c.readers, EPIPE), c.writers, EPIPE)
      ensures QueuesAre(Closed(c)) && Carries(m)
    {
      hide Tasklet.Valid, NoDup, Waiters, WakeAll, Queue, Carries;
      sched.SentinelApart();
      var rhead, whead := rtaskq, wtaskq;
      rtaskq := Shut;
      wtaskq := Shut;
      WakeQueue(rhead, c.readers, EPIPE);
      WakeQueue(whead, c.writers, EPIPE);
    }

    method Close()
      requires Valid()
      modifies this, sched, sched.timers, sched.timers.sentinel, sched.tasks
      ensures Valid() && Now() == Closing(old(Now()))
      ensures old(ch).open ==> RingCleared(old(msgring), msgring, old(rcursor), |old(ch).buffer|, cap)
    {
      hide SysInv, Tasklet.Valid, QueuesAre, Carries, Ring, WakeAll, Carried, NoDup, Waiters, RingCleared;
      if num == -1 {
        Fields();
        return;
      }
      ghost var x := Now();
      Fields();
      CloseInv(x);
      ClosedState(x);
      var n := num;
      num := -1;
      Disband(x.ch, Carried(x));
      ClearSlots(n);
      ch := Closed(x.ch);
      CarriesLess(Carried(x), Carried(Now()));
    }

    // ---------- the rest of a call ----------

    /** What is known of a task when its call comes back with `err`. */
    lemma CameBack(x: Sys, s': State, t: Task, err: Errno)
      requires SysInv(x) && t in x.sched.info && Returned(x.sched, s', t, err) && err == if x.sched.Queued(t) then x.sched.info[t].err else ETIMEDOUT
      requires Inv(s') && t in s'.info
      ensures SysInv(Following(x, s')) && NoDup(x.ch.readers) && NoDup(x.ch.writers)
      ensures x.sched.info[t].frame.value.wait.InRead? ==>
        && Following(x, s') == Sys(s', ReadEnd(x.ch, t, err))
        && (err.Ok? ==> t in x.ch.req && t in Carried(x) && Carried(x)[t] == x.ch.req[t].msg)
        && (!err.Ok? && x.ch.open ==> t in x.ch.readers && x.ch.writers == [])
      ensures x.sched.info[t].frame.value.wait.InWrite? ==>
        && Following(x, s') == Sys(s', WriteEnd(x.ch, t, err)) && t in x.ch.req
        && (!err.Ok? && x.ch.open ==> t in x.ch.writers && x.ch.readers == [])
      ensures forall u :: u in Carried(Following(x, s')) ==> u != t && u in Carried(x) && Carried(Following(x, s'))[u] == Carried(x)[u]
    {
      hide Inv, QuietBut, NoDup, InOrder, CallsKept, Delivery;
      ReturnedInv(x, s', t);
      assert MemberWell(x, t);
      Fewer(x.ch.writers, t);
      var x' := Following(x, s');
      forall u | u in Carried(x') ensures u != t && u in Carried(x) {
        assert u in x.ch.req && u in x.sched.info && u != t;
        CameBackSame(x.sched, s', t, u);
      }
    }

    lemma CameBackSame(s: State, s': State, t: Task, u: Task)
      requires QuietBut(s, s', {t}) && u in s.info && u != t
      ensures Same(s, s', u)
    {
    }

    /** The rest of a read. */
    method EndRead(task: Task, err: Errno, ghost x: Sys) returns (out: Outcome)
      requires sched.Valid() && SysInv(x) && x.ch == ch && QueuesAre(ch) && RingIs(ch) && Carries(Carried(x))
      requires task in x.sched.info && Returned(x.sched, sched.st, task, err) && x.sched.info[task].frame.value.wait.InRead?
      requires err == if x.sched.Queued(task) then x.sched.info[task].err else ETIMEDOUT
      requires task in sched.tasks
      modifies `rtaskq, `ch, sched.tasks`svcPrev, sched.tasks`svcNext, sched.tasks`svcReq
      ensures Valid() && Now() == Following(x, sched.st)
      ensures if err.Ok? then task in x.ch.req && out == Message(x.ch.req[task].msg) else out == Failed(err)
    {
      hide SysInv, Inv, Tasklet.Holds, Carries, Ring, Carried, QueuesAre, Returned, NoDup;
      sched.SentinelApart();
      CameBack(x, sched.st, task, err);
      Fields2(x.ch);
      if !err.Ok? {
        if !rtaskq.Shut? {
          LeaveReaders(task, x.ch);
        }
        out := Failed(err);
      } else {
        out := Message(Held(task, Carried(x)));
        Forget(task, Carried(x));
      }
      Settle(x, if err.Ok? || !x.ch.open then x.ch else x.ch.(readers := Unlinked(x.ch.readers, task)),
             if err.Ok? then Carried(x) - {task} else Carried(x));
    }

    ghost method Settle(x: Sys, c: Chan, m: map<Task, Value>)
      requires sched.Valid() && SysInv(Following(x, sched.st)) && QueuesAre(c) && RingIs(x.ch) && Carries(m)
      requires var c' := Following(x, sched.st).ch;
        && c'.readers == c.readers && c'.writers == c.writers && c'.open == c.open
        && c'.buffer == x.ch.buffer && c'.open == x.ch.open && c'.cap == x.ch.cap
      requires var m' := Carried(Following(x, sched.st)); forall u :: u in m' ==> u in m && m'[u] == m[u]
      modifies `ch
      ensures Valid() && Now() == Following(x, sched.st)
    {
      hide SysInv, Tasklet.Valid, Carries, Ring, Carried, QueuesAre, Continue;
      ch := Following(x, sched.st).ch;
      QueuesSame(c, ch);
      CarriesLess(m, Carried(Now()));
    }

    function Held(task: Task, ghost m: map<Task, Value>): (msg: Value)
      requires Carries(m) && task in m
      reads task, sched`tasks, sched.tasks`svcReq
      ensures msg == m[task]
    {
      task.svcReq
    }

    lemma Fields2(c: Chan)
      requires QueuesAre(c)
      ensures rtaskq.Shut? <==> !c.open
      ensures wtaskq.Shut? <==> !c.open
    {
    }

    method LeaveReaders(task: Task, ghost c: Chan)
      requires QueuesAre(c) && c.open && task in c.readers && c.writers == [] && NoDup(c.readers)
      modifies `rtaskq, sched.tasks`svcPrev, sched.tasks`svcNext
      ensures QueuesAre(c.(readers := Unlinked(c.readers, task)))
    {
      hide NoDup;
      rtaskq := UnlinkTask(rtaskq, task, sched.tasks, c.readers);
    }

    method LeaveWriters(task: Task, ghost c: Chan)
      requires QueuesAre(c) && c.open && task in c.writers && c.readers == [] && NoDup(c.writers)
      modifies `wtaskq, sched.tasks`svcPrev, sched.tasks`svcNext
      ensures QueuesAre(c.(writers := Unlinked(c.writers, task)))
    {
      hide NoDup;
      wtaskq := UnlinkTask(wtaskq, task, sched.tasks, c.writers);
    }

    /** The rest of a write. */
    method EndWrite(task: Task, err: Errno, ghost x: Sys) returns (out: Outcome)
      requires sched.Valid() && SysInv(x) && x.ch == ch && QueuesAre(ch) && RingIs(ch) && Carries(Carried(x))
      requires task in x.sched.info && Returned(x.sched, sched.st, task, err) && x.sched.info[task].frame.value.wait.InWrite?
      requires err == if x.sched.Queued(task) then x.sched.info[task].err else ETIMEDOUT
      requires task in sched.tasks
      modifies `wtaskq, `ch, sched.tasks`svcPrev, sched.tasks`svcNext
      ensures Valid() && Now() == Following(x, sched.st)
      ensures out == if err.Ok? then Done else Failed(err)
    {
      hide SysInv, Inv, Tasklet.Holds, Carries, Ring, Carried, QueuesAre, Returned, NoDup;
      sched.SentinelApart();
      CameBack(x, sched.st, task, err);
      Fields2(x.ch);
      if !err.Ok? {
        if !wtaskq.Shut? {
          LeaveWriters(task, x.ch);
        }
      }
      Settle(x, if err.Ok? || !x.ch.open then x.ch else x.ch.(writers := Unlinked(x.ch.writers, task)), Carried(x));
      out := if err.Ok? then Done else Failed(err);
    }

    // ---------- steps of the scheduler that end a call ----------

    /** What resumes a suspended task: the ready list, or its timer. */
    lemma Woken(x: Sys, s1: State, t: Task)
      requires SysInv(x) && TookOut(x.sched, s1, t) && x.sched.info[t].alive && x.sched.control.Idle?
      requires s1.info[t].err == if x.sched.Queued(t) then x.sched.info[t].err else ETIMEDOUT
      ensures Inside(x.sched, t) ==> Returned(x.sched, SchedModel.Resume(s1, t), t, s1.info[t].err) && !x.sched.info[t].sig
      ensures !Inside(x.sched, t) ==> Following(x, SchedModel.Resume(s1, t)) == Sys(SchedModel.Resume(s1, t), x.ch)
      ensures !Inside(x.sched, t) ==> forall u :: u in Carried(Following(x, SchedModel.Resume(s1, t))) ==>
        u in Carried(x) && Carried(Following(x, SchedModel.Resume(s1, t)))[u] == Carried(x)[u]
    {
      hide Inv, SchedModel.Resume, InOrder, CallsKept, Bounds, Delivery, QuietBut;
      var s' := SchedModel.Resume(s1, t);
      Unmarking(x);
      ResumeQuiet(s1, t);
      Through(x.sched, s1, s', t);
      if Inside(x.sched, t) {
        assert !s1.info[t].sig by { assert MemberWell(x, t); }
      } else {
        if |s'.answers| > |x.sched.answers| {
          assert s'.answers[|s'.answers| - 1] in s'.answers[|x.sched.answers|..];
          NotOurs(x.ch, s'.answers[|s'.answers| - 1]);
        }
        forall u | u in Carried(Sys(s', x.ch)) ensures u in Carried(x) {
          assert u in x.ch.req && u in x.sched.info;
          QuietSame(x.sched, s', u);
        }
      }
    }

    lemma QuietSame(s: State, s': State, u: Task)
      requires QuietBut(s, s', {}) && u in s.info
      ensures Same(s, s', u)
    {
    }

    /** The rest of the call, if the task that was just resumed is in one. */
    method EndCall(task: Task, wait: Option<Wait>, answer: Option<Errno>, ghost x: Sys, ghost a: Step) returns (out: Option<Outcome>)
      requires sched.Valid() && SysInv(x) && x.ch == ch && QueuesAre(ch) && RingIs(ch) && Carries(Carried(x)) && task in sched.tasks
      requires Fair(x, ByScheduler(a)) && sched.st == Apply(x.sched, a) && task in x.sched.info && x.sched.info[task].alive
      requires wait == if x.sched.info[task].frame.Some? then Some(x.sched.info[task].frame.value.wait) else None
      requires if Inside(x.sched, task) then Returned(x.sched, sched.st, task, task.err) else Following(x, sched.st) == Sys(sched.st, ch)
      requires Told(x.sched.answers, sched.st.answers, answer)
      requires Inside(x.sched, task) ==> task.err == if x.sched.Queued(task) then x.sched.info[task].err else ETIMEDOUT
      requires !Inside(x.sched, task) ==> forall u :: u in Carried(Following(x, sched.st)) ==> u in Carried(x) && Carried(Following(x, sched.st))[u] == Carried(x)[u]
      modifies this, sched.tasks`svcPrev, sched.tasks`svcNext, sched.tasks`svcReq
      ensures Valid() && Now() == Move1(x, ByScheduler(a))
      ensures out.Some? <==> Inside(x.sched, task)
      ensures CallReturned(x.ch, x.sched.answers, sched.st.answers, out)
    {
      hide SysInv, Tasklet.Valid, QueuesAre, RingIs, Carries, Carried, Apply, Fair, Returned, Following;
      SchedulerInv(x, a);
      if Inside(x.sched, task) {
        AnswerOf(x.sched, sched.st, task, task.err, answer);
      }
      if wait == Some(InRead) {
        var r := EndRead(task, answer.value, x);
        out := Some(r);
      } else if wait == Some(InWrite) {
        var r := EndWrite(task, answer.value, x);
        out := Some(r);
      } else {
        CarriesLess(Carried(x), Carried(Now()));
        out := None;
      }
    }

    /** The answer that do_yield has returned to a call. */
    lemma AnswerOf(s: State, s': State, t: Task, err: Errno, answer: Option<Errno>)
      requires Returned(s, s', t, err) && Told(s.answers, s'.answers, answer)
      ensures answer == Some(err) && |s'.answers| == |s.answers| + 1
      ensures var r := s'.answers[|s.answers|]; r.task == t && r.err == err && r.wait == s.info[t].frame.value.wait
    {
    }

    /** resume_list resumes its next task, and the call that this one had blocked in goes on. */
    method ResumeNext() returns (out: Option<Outcome>)
      requires Valid() && sched.st.control.Idle? && sched.st.detached != []
      modifies this, sched, sched.tasks
      ensures Valid() && Now() == Move1(old(Now()), ByScheduler(DoResumeNext))
      ensures out.Some? <==> Inside(old(sched.st), old(sched.st).detached[0])
      ensures CallReturned(old(ch), old(sched.st).answers, sched.st.answers, out)
    {
      hide SysInv, Tasklet.Valid, QueuesAre, RingIs, Carries, Carried, SchedModel.Resume, TookOut, Returned, Following;
      ghost var x := Now();
      NextUp(x);
      sched.SentinelApart();
      var task: Task := sched.draining;
      var wait := if task.frame.Some? then Some(task.frame.value.wait) else None;
      Woken(x, Taken(x.sched), task);
      var answer := sched.ResumeFirst();
      out := EndCall(task, wait, answer, x, DoResumeNext);
    }

    lemma NextUp(x: Sys)
      requires x == Now() && Valid() && sched.st.control.Idle? && sched.st.detached != []
      ensures var t := x.sched.detached[0];
        && sched.draining == t && t in sched.tasks && t in x.sched.info && x.sched.info[t].alive && sched.Data(t) == x.sched.info[t]
        && x.sched.Queued(t) && TookOut(x.sched, Taken(x.sched), t)
      ensures SchedModel.ResumeNext(x.sched) == SchedModel.Resume(Taken(x.sched), x.sched.detached[0])
    {
      hide SysInv, Inv, TookOut, Taken, SchedModel.ResumeNext;
      Scheduled(x);
      sched.FirstQueued(x.sched);
      sched.Keys(x.sched);
      NextOut(x.sched);
    }

    /** The first task of the detached list, taken out of it. */
    lemma NextOut(s: State)
      requires Inv(s) && s.control.Idle? && s.detached != []
      ensures var t := s.detached[0];
        && t in s.info && s.info[t].alive && s.Queued(t) && TookOut(s, Taken(s), t)
        && SchedModel.ResumeNext(s) == SchedModel.Resume(Taken(s), t)
    {
      hide SchedModel.Resume, Waits, Accounts, SchedModel.Fifo, JoinsHonest, NoDup, Sorted, Unique;
      TakenQueued(s);
      assert s.detached[0] in s.ready + s.detached;
    }

    /** resume_timedout fires its next timer, and the call that the task had blocked in comes back with ETIMEDOUT. */
    method FireNext() returns (fired: bool, out: Option<Outcome>)
      requires Valid() && sched.st.control.Idle? && sched.st.detached == []
      modifies this, sched, sched.timers, sched.timers.sentinel, sched.tasks
      ensures Valid() && Now() == Move1(old(Now()), ByScheduler(DoFire))
      ensures fired <==> old(sched.st).timers != [] && old(sched.st).timers[0].deadline <= sched.now
      ensures out.Some? <==> fired && Inside(old(sched.st), old(sched.st).timers[0].task)
      ensures out.Some? ==> out.value == Failed(ETIMEDOUT)
      ensures CallReturned(old(ch), old(sched.st).answers, sched.st.answers, out)
    {
      hide SysInv, Tasklet.Valid, QueuesAre, RingIs, Carries, Carried, TookOut, Following, SchedModel.Fire, Told, CallReturned, Move1;
      ghost var x := Now();
      var task := NextDue(x);
      sched.SentinelApart();
      var wait := if task != null && task.frame.Some? then Some(task.frame.value.wait) else None;
      if task != null {
        DueUp(x, task);
      }
      var answer;
      fired, answer := sched.FireNext();
      if !fired {
        NothingFired(x);
        NoCall(x.ch, x.sched.answers, sched.st.answers);
        return false, None;
      }
      out := EndTimedOut(task, wait, answer, x);
    }

    /** The rest of the call of a task whose timer was just fired. */
    method EndTimedOut(task: Task, wait: Option<Wait>, answer: Option<Errno>, ghost x: Sys) returns (out: Option<Outcome>)
      requires sched.Valid() && SysInv(x) && x.ch == ch && QueuesAre(ch) && RingIs(ch) && Carries(Carried(x)) && task in sched.tasks
      requires x.sched.control.Idle? && x.sched.detached == [] && x.sched.timers != [] && x.sched.timers[0].task == task
      requires x.sched.timers[0].deadline <= x.sched.now && sched.st == SchedModel.Fire(x.sched)
      requires task in x.sched.info && wait == if x.sched.info[task].frame.Some? then Some(x.sched.info[task].frame.value.wait) else None
      requires Told(x.sched.answers, sched.st.answers, answer)
      modifies this, sched.tasks`svcPrev, sched.tasks`svcNext, sched.tasks`svcReq
      ensures Valid() && Now() == Move1(x, ByScheduler(DoFire))
      ensures out.Some? <==> Inside(x.sched, task)
      ensures out.Some? ==> out.value == Failed(ETIMEDOUT)
      ensures CallReturned(x.ch, x.sched.answers, sched.st.answers, out)
    {
      hide SysInv, Inv, Tasklet.Valid, QueuesAre, RingIs, Carries, Carried, SchedModel.Resume, TookOut, Returned, Following, SchedModel.Fire, Fired;
      SchedInvOf(x);
      DueOut(x.sched);
      Woken(x, Fired(x.sched), task);
      TimedOut(x.sched);
      ErrOf(task);
      if Inside(x.sched, task) {
        AnswerOf(x.sched, sched.st, task, task.err, answer);
      }
      out := EndCall(task, wait, answer, x, DoFire);
    }

    lemma SchedInvOf(x: Sys)
      requires SysInv(x)
      ensures Inv(x.sched)
    {
      hide Inv;
    }

    method NextDue(ghost x: Sys) returns (task: Task?)
      requires x == Now() && Valid()
      ensures task == if x.sched.timers == [] then null else x.sched.timers[0].task
      ensures task != null ==> task in sched.tasks
    {
      task := sched.Nearest(x.sched);
    }

    lemma NoCall(c: Chan, before: seq<SchedModel.Return>, after: seq<SchedModel.Return>)
      ensures CallReturned(c, before, after, None)
    {
    }

    lemma NothingFired(x: Sys)
      requires SchedModel.Fire(x.sched) == x.sched
      ensures Move1(x, ByScheduler(DoFire)) == x
    {
    }

    lemma DueUp(x: Sys, t: Task)
      requires x == Now() && Valid() && x.sched.timers != [] && t == x.sched.timers[0].task
      ensures t in x.sched.info && t.frame == x.sched.info[t].frame && sched.now == x.sched.now
    {
      hide SysInv, Inv, Tasklet.Holds;
      Scheduled(x);
      sched.Keys(x.sched);
      sched.Clock(x.sched);
      FirstIn(x.sched);
    }

    lemma FirstIn(s: State)
      requires Inv(s) && s.timers != []
      ensures s.timers[0].task in s.info
    {
      hide NoDup, Waits, Accounts, SchedModel.Fifo, JoinsHonest;
      assert s.timers[0].task in TimedTasks(s.timers);
    }

    lemma Scheduled(x: Sys)
      requires x == Now() && Valid()
      ensures Inv(x.sched) && sched.Holds(x.sched)
    {
      hide Inv, Tasklet.Holds;
    }

    /** The first due task, taken out of the timers. */
    lemma DueOut(s: State)
      requires Inv(s) && s.control.Idle? && s.detached == [] && s.timers != []
      ensures var t := s.timers[0].task;
        && t in s.info && s.info[t].alive && !s.Queued(t) && TookOut(s, Fired(s), t) && t in Fired(s).info && Fired(s).info[t].err == ETIMEDOUT
        && (s.timers[0].deadline <= s.now ==> SchedModel.Fire(s) == SchedModel.Resume(Fired(s), t))
    {
      hide SchedModel.Resume, Waits, Accounts, SchedModel.Fifo, JoinsHonest, NoDup, Sorted, Unique;
      FirstWaits(s);
      assert s.timers[0].task in TimedTasks(s.timers);
    }

    lemma TimedOut(s: State)
      requires s.timers != [] && s.timers[0].task in s.info && SchedModel.Fire(s) == SchedModel.Resume(Fired(s), s.timers[0].task)
      ensures s.timers[0].task in SchedModel.Fire(s).info && SchedModel.Fire(s).info[s.timers[0].task].err == ETIMEDOUT
    {
    }

    lemma ErrOf(t: Task)
      requires sched.Valid() && t in sched.tasks
      ensures t in sched.st.info && t.err == sched.st.info[t].err
    {
      hide Inv;
      sched.Keys(sched.st);
    }
  }
}
