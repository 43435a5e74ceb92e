/** The channel over whole runs: no message is lost, repeated or overtaken, and nobody waits in vain. */
module ChannelRuns {
  import opened RbShape
  import opened Tasks
  import opened SchedModel
  import opened SchedInvariant
  import opened SchedTheorems
  import opened ChannelModel
  import opened ChannelInvariant
  import opened ChannelMoves
  import opened TaskQueues

  // ---------- calls that return ----------

  /** The task that comes back is out of the queues of the channel. */
  lemma ReturnedMembers(x: Sys, x': Sys, t: Task, err: Errno)
    requires Members(x) && t in x.sched.info && Returned(x.sched, x'.sched, t, err) && Grown(x.ch, x'.ch)
    requires t in x'.sched.info && t !in x'.ch.readers && t !in x'.ch.writers && t !in x'.ch.req
    requires forall u :: u in x.sched.info && u != t ==> SameIn(x.ch, x'.ch, u)
    requires forall u :: u in x'.ch.readers ==> u in x.ch.readers
    requires forall u :: u in x'.ch.writers ==> u in x.ch.writers
    requires forall u :: u in x'.ch.req ==> u in x.ch.req
    ensures Members(x') && forall u :: u in x'.ch.req ==> u in x.sched.info
  {
    hide QuietBut;
    MembersKept(x, x', {t});
  }

  /** A read comes back with its message. */
  lemma ReadDoneInv(x: Sys, s': State, t: Task)
    requires SysInv(x) && Inv(s') && t in x.sched.info && t in s'.info && Returned(x.sched, s', t, Ok) && x.sched.info[t].frame.value.wait.InRead?
    requires t in x.ch.req && t !in x.ch.readers && t !in x.ch.writers
    ensures SysInv(Sys(s', ReadEnd(x.ch, t, Ok)))
  {
    hide Inv, QuietBut, Members, CallsKept, Rising, NoDup;
    var x', p := Sys(s', ReadEnd(x.ch, t, Ok)), Parcel(t, x.ch.req[t]);
    OffersSame(x.ch, x'.ch);
    LineMoves(x.ch, x'.ch);
    ReturnedMembers(x, x', t, Ok);
    ReadDoneDelivery(x, x', t);
  }

  lemma ReadDoneDelivery(x: Sys, x': Sys, t: Task)
    requires Delivery(x) && Members(x) && t in x.sched.info && Returned(x.sched, x'.sched, t, Ok) && x.sched.info[t].frame.value.wait.InRead?
    requires t in x.ch.req && x'.ch == ReadEnd(x.ch, t, Ok)
    ensures Delivery(x')
  {
    hide Inv;
    var p := Parcel(t, x.ch.req[t]);
    assert Reading(x, t);
    forall q | q in x'.ch.taken && q !in x'.ch.returned ensures Holding(x', q) {
      assert p in x'.ch.returned;
      assert Holding(x, q) && q.task != t;
      assert Same(x.sched, x'.sched, q.task);
    }
    forall u | u in x'.ch.req && x'.sched.Alive(u) && x'.sched.info[u].frame.Some? && x'.sched.info[u].frame.value.wait.InRead?
      ensures Parcel(u, x'.ch.req[u]) in x'.ch.taken && Parcel(u, x'.ch.req[u]) !in x'.ch.returned {
      assert Reading(x', u) && u != t;
      assert Same(x.sched, x'.sched, u);
    }
  }

  /** A read comes back with an error. */
  lemma ReadFailedInv(x: Sys, s': State, t: Task, err: Errno)
    requires SysInv(x) && Inv(s') && t in x.sched.info && t in s'.info && Returned(x.sched, s', t, err) && !err.Ok?
    requires x.sched.info[t].frame.value.wait.InRead?
    requires t !in x.ch.req && t !in x.ch.writers && (x.ch.open <==> t in x.ch.readers)
    ensures SysInv(Sys(s', ReadEnd(x.ch, t, err)))
  {
    hide Inv, QuietBut, Members, CallsKept, Rising, NoDup, Delivery;
    var x' := Sys(s', ReadEnd(x.ch, t, err));
    if x.ch.open {
      UnlinkedNoDup(x.ch.readers, t);
    }
    Fewer(x.ch.readers, t);
    OffersSame(x.ch, x'.ch);
    LineMoves(x.ch, x'.ch);
    ReturnedMembers(x, x', t, err);
    DeliveryKept(x, x', {t});
  }

  /** A write comes back with 0, or from a channel that was closed. */
  lemma WriteDoneInv(x: Sys, s': State, t: Task, err: Errno)
    requires SysInv(x) && Inv(s') && t in x.sched.info && t in s'.info && Returned(x.sched, s', t, err)
    requires x.sched.info[t].frame.value.wait.InWrite? && t in x.ch.req && t !in x.ch.readers && t !in x.ch.writers
    requires if err.Ok? then x.ch.req[t] in x.ch.accepted else x.ch.req[t].id in x.ch.refused && !x.ch.open
    ensures SysInv(Sys(s', WriteEnd(x.ch, t, err)))
  {
    hide Inv, QuietBut, Members, Rising, NoDup, Delivery;
    var x' := Sys(s', WriteEnd(x.ch, t, err));
    OffersSame(x.ch, x'.ch);
    assert x'.ch.refused == x.ch.refused;
    assert err.Ok? ==> x.ch.req[t].id in Ids(x.ch.accepted);
    ReturnedMembers(x, x', t, err);
    DeliveryKept(x, x', {t});
  }

  /** A write comes back from a wait that was in vain: its message is withdrawn. */
  lemma WriteFailedInv(x: Sys, s': State, t: Task, err: Errno)
    requires SysInv(x) && Inv(s') && t in x.sched.info && t in s'.info && Returned(x.sched, s', t, err)
    requires x.sched.info[t].frame.value.wait.InWrite? && t in x.ch.req && t !in x.ch.readers && t in x.ch.writers && !err.Ok?
    ensures SysInv(Sys(s', WriteEnd(x.ch, t, err)))
  {
    hide Inv, QuietBut, Members, Rising, NoDup, Delivery, CallsKept;
    var x' := Sys(s', WriteEnd(x.ch, t, err));
    UnlinkedNoDup(x.ch.writers, t);
    Fewer(x.ch.writers, t);
    Withdrawn(x.ch, x'.ch, t, err);
    ReturnedMembers(x, x', t, err);
    DeliveryKept(x, x', {t});
  }

  lemma Fewer(q: seq<Task>, t: Task)
    ensures forall u :: u in Unlinked(q, t) ==> u in q
  {
  }

  /** One offer less. */
  lemma OfferWithdrawn(ch: Chan, ch': Chan, k: nat)
    requires NoDup(ch.writers) && k < |ch.writers| && ch.writers[k] in ch.req
    requires ch'.writers == ch.writers[..k] + ch.writers[k + 1..] && ch'.req == ch.req - {ch.writers[k]}
    ensures |ch.Offers()| == |ch.writers| && ch.Offers()[k] == ch.req[ch.writers[k]]
    ensures ch'.Offers() == ch.Offers()[..k] + ch.Offers()[k + 1..]
  {
    var o, o' := ch.Offers(), ch'.Offers();
    forall i | 0 <= i < k ensures o'[i] == o[i] {
      assert ch'.writers[i] == ch.writers[i] && ch.writers[i] != ch.writers[k];
    }
    forall i | k <= i < |o'| ensures o'[i] == o[i + 1] {
      assert ch'.writers[i] == ch.writers[i + 1] && ch.writers[i + 1] != ch.writers[k];
    }
  }

  lemma CutIn(a: seq<Entry>, o: seq<Entry>, k: nat)
    requires k < |o|
    ensures (a + o)[|a| + k] == o[k]
    ensures a + (o[..k] + o[k + 1..]) == (a + o)[..|a| + k] + (a + o)[|a| + k + 1..]
  {
  }

  /** The line stays in order, and the call is refused. */
  lemma Withdrawn(ch: Chan, ch': Chan, t: Task, err: Errno)
    requires NoDup(ch.writers) && Rising(ch.Line()) && CallsKept(ch) && ch.open && !err.Ok?
    requires t in ch.writers && t in ch.req && ch' == WriteEnd(ch, t, err)
    ensures Rising(ch'.Line()) && CallsKept(ch')
  {
    hide NoDup, Rising;
    var k :| 0 <= k < |ch.writers| && ch.writers[k] == t;
    UnlinkedAt(ch.writers, k);
    OfferWithdrawn(ch, ch', k);
    CutIn(ch.accepted, ch.Offers(), k);
    LineShrinks(ch.Line(), |ch.accepted| + k);
    WithdrawnCalls(ch, ch', ch.Line()[|ch.accepted| + k].id, err);
  }

  lemma WithdrawnCalls(ch: Chan, ch': Chan, id: nat, err: Errno)
    requires CallsKept(ch) && Ids(ch.Line()) == Ids(ch'.Line()) + {id} && id !in Ids(ch'.Line()) && !err.Ok?
    requires ch'.calls == ch.calls && ch'.refused == ch.refused + {id} && ch'.accepted == ch.accepted
    requires ch'.replies == ch.replies + [Reply(id, err)]
    ensures CallsKept(ch')
  {
    hide Ids;
  }

  lemma LineShrinks(q: seq<Entry>, n: nat)
    requires n < |q| && Rising(q)
    ensures Rising(q[..n] + q[n + 1..])
    ensures Ids(q) == Ids(q[..n] + q[n + 1..]) + {q[n].id} && q[n].id !in Ids(q[..n] + q[n + 1..])
  {
    var r := q[..n] + q[n + 1..];
    forall i | 0 <= i < |r| ensures r[i] == q[if i < n then i else i + 1] {
    }
    forall e | e in q && e != q[n] ensures e in r {
      var i :| 0 <= i < |q| && q[i] == e;
      assert r[if i < n then i else i - 1] == e;
    }
    forall e | e in r ensures e in q && e.id != q[n].id {
      var i :| 0 <= i < |r| && r[i] == e;
      assert q[if i < n then i else i + 1] == e;
    }
  }

  /** Whichever call of the channel a step makes return, the rest of that call keeps the invariant. */
  lemma ReturnedInv(x: Sys, s': State, t: Task)
    requires SysInv(x) && Inv(s') && t in x.sched.info && t in s'.info
    requires Returned(x.sched, s', t, if x.sched.Queued(t) then x.sched.info[t].err else ETIMEDOUT)
    ensures SysInv(Following(x, s'))
  {
    hide Inv, QuietBut, Bounds, InOrder, CallsKept, Delivery;
    var err := if x.sched.Queued(t) then x.sched.info[t].err else ETIMEDOUT;
    assert MemberWell(x, t);
    ShutQueues(x.ch);
    if x.sched.info[t].frame.value.wait.InRead? {
      if t in x.ch.req {
        ReadDoneInv(x, s', t);
      } else {
        ReadFailedInv(x, s', t, err);
      }
    } else if t in x.ch.writers {
      WriteFailedInv(x, s', t, err);
    } else {
      WriteDoneInv(x, s', t, err);
    }
  }

  lemma ShutQueues(ch: Chan)
    requires Bounds(ch)
    ensures !ch.open ==> ch.readers == [] && ch.writers == []
  {
  }

  lemma SchedulerInv(x: Sys, a: Step)
    requires SysInv(x) && Fair(x, ByScheduler(a))
    ensures SysInv(Following(x, Apply(x.sched, a)))
  {
    hide Inv, QuietBut, Members, Bounds, InOrder, CallsKept, Delivery, Apply, Legal, Continue, Returned;
    var s, s' := x.sched, Apply(x.sched, a);
    Unmarking(x);
    StepInv(s, a);
    StepEffect(s, a);
    if t :| t in s.info && Returned(s, s', t, if s.Queued(t) then s.info[t].err else ETIMEDOUT) {
      StepKnows(s, a, t);
      ReturnedInv(x, s', t);
    } else {
      if |s'.answers| > |s.answers| {
        assert s'.answers[|s'.answers| - 1] in s'.answers[|s.answers|..];
        NotOurs(x.ch, s'.answers[|s'.answers| - 1]);
      }
      QuietMembers(x, s');
      DeliveryKept(x, Sys(s', x.ch), {});
    }
  }

  lemma NotOurs(ch: Chan, r: Return)
    requires !r.wait.InRead? && !r.wait.InWrite?
    ensures Continue(ch, r) == ch
  {
  }

  lemma QuietMembers(x: Sys, s': State)
    requires Members(x) && QuietBut(x.sched, s', {})
    ensures Members(Sys(s', x.ch)) && forall t :: t in x.ch.req ==> t in x.sched.info
  {
    hide QuietBut;
    MembersKept(x, Sys(s', x.ch), {});
  }

  // ---------- every move, every run ----------

  lemma MoveInv(x: Sys, m: Move)
    requires SysInv(x) && Fair(x, m)
    ensures SysInv(Move1(x, m))
  {
    hide SysInv;
    match m
    case ByScheduler(a) => SchedulerInv(x, a);
    case DoRead(sec) => ReadInv(x, sec);
    case DoWrite(msg, sec) => WriteInv(x, msg, sec);
    case DoPost(msg) => PostInv(x, msg);
    case DoClose => CloseInv(x);
  }

  lemma OpenedInv(now: real, cap: nat)
    ensures SysInv(Opened(now, cap))
  {
  }

  lemma {:induction false} MovesInv(x: Sys, ms: seq<Move>)
    requires SysInv(x) && FairRun(x, ms)
    ensures SysInv(Moves(x, ms))
    decreases |ms|
  {
    hide SysInv, Fair, Move1;
    if |ms| != 0 {
      MoveInv(x, ms[0]);
      MovesInv(Move1(x, ms[0]), ms[1..]);
    }
  }

  // ---------- what this means ----------

  lemma Reached(now: real, cap: nat, ms: seq<Move>) returns (x: Sys)
    requires FairRun(Opened(now, cap), ms)
    ensures x == Moves(Opened(now, cap), ms) && SysInv(x)
  {
    hide SysInv, FairRun, Moves;
    x := Moves(Opened(now, cap), ms);
    OpenedInv(now, cap);
    MovesInv(Opened(now, cap), ms);
  }

  /** Over every run, messages are assigned to readers in the order of the calls that brought them, and
    what was accepted and not assigned is in the ring, or was there when the channel was closed. */
  lemma MessageOrder(now: real, cap: nat, ms: seq<Move>)
    requires FairRun(Opened(now, cap), ms)
    ensures var ch := Moves(Opened(now, cap), ms).ch;
      && ch.accepted == Contents(ch.taken) + ch.buffer + ch.dropped
      && (ch.open ==> ch.dropped == []) && (!ch.open ==> ch.buffer == [])
      && (forall i, j :: 0 <= i < j < |ch.accepted| ==> ch.accepted[i].id < ch.accepted[j].id)
  {
    hide SysInv, FairRun, Moves;
    var x := Reached(now, cap, ms);
    MessageOrderNow(x);
  }

  lemma MessageOrderNow(x: Sys)
    requires SysInv(x)
    ensures var ch := x.ch;
      && ch.accepted == Contents(ch.taken) + ch.buffer + ch.dropped
      && (ch.open ==> ch.dropped == []) && (!ch.open ==> ch.buffer == [])
      && (forall i, j :: 0 <= i < j < |ch.accepted| ==> ch.accepted[i].id < ch.accepted[j].id)
  {
    var q := x.ch.accepted;
    forall i, j | 0 <= i < j < |q| ensures q[i].id < q[j].id {
      assert x.ch.Line()[i] == q[i] && x.ch.Line()[j] == q[j];
    }
  }

  /** The reader of `p` is about to be resumed with it. */
  ghost predicate Underway(x: Sys, p: Parcel) {
    && p.task in x.ch.req && x.ch.req[p.task] == p.entry && x.sched.Queued(p.task)
    && p.task in x.sched.info && x.sched.info[p.task].err.Ok? && !x.sched.info[p.task].sig
  }

  /** Over every run, no read returns a message that another one has returned, and a message assigned
    to a reader has been returned by it, or the reader is about to be resumed with it. */
  lemma ReturnedOnce(now: real, cap: nat, ms: seq<Move>)
    requires FairRun(Opened(now, cap), ms)
    ensures var x := Moves(Opened(now, cap), ms);
      && (forall i, j :: 0 <= i < j < |x.ch.returned| ==> x.ch.returned[i].entry.id != x.ch.returned[j].entry.id)
      && (forall p :: p in x.ch.returned ==> p in x.ch.taken)
      && (forall p :: p in x.ch.taken ==> p in x.ch.returned || Underway(x, p))
  {
    hide SysInv, FairRun, Moves;
    var x := Reached(now, cap, ms);
    ReturnedOnceNow(x);
  }

  lemma ReturnedOnceNow(x: Sys)
    requires SysInv(x)
    ensures forall i, j :: 0 <= i < j < |x.ch.returned| ==> x.ch.returned[i].entry.id != x.ch.returned[j].entry.id
    ensures forall p :: p in x.ch.returned ==> p in x.ch.taken
    ensures forall p :: p in x.ch.taken ==> p in x.ch.returned || Underway(x, p)
  {
    var ch := x.ch;
    forall p | p in ch.taken && p !in ch.returned ensures Underway(x, p) {
      assert Holding(x, p);
      assert MemberWell(x, p.task);
    }
    forall i, j | 0 <= i < j < |ch.returned| ensures ch.returned[i].entry.id != ch.returned[j].entry.id {
      assert ch.returned[i] in ch.taken && ch.returned[j] in ch.taken;
      var k :| 0 <= k < |ch.taken| && ch.taken[k] == ch.returned[i];
      var l :| 0 <= l < |ch.taken| && ch.taken[l] == ch.returned[j];
      assert ch.Line()[k] == ch.taken[k].entry && ch.Line()[l] == ch.taken[l].entry;
      assert k != l;
    }
  }

  /** Over every run, a write or post that has told its caller 0 has its message accepted, and no other has;
    and every call so far is accepted, on offer by a waiting writer, or refused, and only one of these. */
  lemma CallsAnswered(now: real, cap: nat, ms: seq<Move>)
    requires FairRun(Opened(now, cap), ms)
    ensures var ch := Moves(Opened(now, cap), ms).ch;
      && (forall r :: r in ch.replies ==> (r.err.Ok? <==> r.id in Ids(ch.accepted)))
      && (forall i: nat :: i < ch.calls ==>
        (if i in Ids(ch.accepted) then 1 else 0) + (if i in Ids(ch.Offers()) then 1 else 0) + (if i in ch.refused then 1 else 0) == 1)
  {
    hide SysInv, FairRun, Moves;
    var x := Reached(now, cap, ms);
    CallsAnsweredNow(x);
  }

  lemma CallsAnsweredNow(x: Sys)
    requires SysInv(x)
    ensures forall r :: r in x.ch.replies ==> (r.err.Ok? <==> r.id in Ids(x.ch.accepted))
    ensures forall i: nat :: i < x.ch.calls ==>
      (if i in Ids(x.ch.accepted) then 1 else 0) + (if i in Ids(x.ch.Offers()) then 1 else 0) + (if i in x.ch.refused then 1 else 0) == 1
  {
    hide Inv, Members, Delivery, Bounds;
    IdsJoin(x.ch.accepted, x.ch.Offers());
    RisingFront(x.ch.accepted, x.ch.Offers());
  }

  /** Over every run, a reader waits only while there is no message for it, a writer only while there is
    no room; and a task that is suspended in a call is in its queue, once. */
  lemma NobodyForgotten(now: real, cap: nat, ms: seq<Move>)
    requires FairRun(Opened(now, cap), ms)
    ensures var x := Moves(Opened(now, cap), ms);
      && (x.ch.readers != [] ==> x.ch.buffer == [] && x.ch.writers == [] && x.ch.open)
      && (x.ch.writers != [] ==> |x.ch.buffer| == cap && x.ch.readers == [] && x.ch.open)
      && NoDup(x.ch.readers) && NoDup(x.ch.writers)
      && (forall t :: t in x.sched.info && Inside(x.sched, t) && !x.sched.Queued(t) ==>
        t in (if x.sched.info[t].frame.value.wait.InRead? then x.ch.readers else x.ch.writers))
  {
    hide SysInv, FairRun, Moves;
    var x := Reached(now, cap, ms);
    CapKept(Opened(now, cap), ms);
    NobodyForgottenNow(x);
  }

  lemma NobodyForgottenNow(x: Sys)
    requires SysInv(x)
    ensures x.ch.readers != [] ==> x.ch.buffer == [] && x.ch.writers == [] && x.ch.open
    ensures x.ch.writers != [] ==> |x.ch.buffer| == x.ch.cap && x.ch.readers == [] && x.ch.open
    ensures NoDup(x.ch.readers) && NoDup(x.ch.writers)
    ensures forall t :: t in x.sched.info && Inside(x.sched, t) && !x.sched.Queued(t) ==>
      t in (if x.sched.info[t].frame.value.wait.InRead? then x.ch.readers else x.ch.writers)
  {
    hide Inv, Delivery, CallsKept, InOrder;
    forall t | t in x.sched.info && Inside(x.sched, t) && !x.sched.Queued(t)
      ensures t in (if x.sched.info[t].frame.value.wait.InRead? then x.ch.readers else x.ch.writers) {
      assert MemberWell(x, t);
    }
  }

  lemma {:induction false} CapKept(x: Sys, ms: seq<Move>)
    ensures Moves(x, ms).ch.cap == x.ch.cap
    decreases |ms|
  {
    if |ms| != 0 {
      CapKept(Move1(x, ms[0]), ms[1..]);
    }
  }

  /** close wakes every waiting task with EPIPE, in the order of its queue, and from then on nobody waits. */
  lemma CloseWakes(x: Sys)
    requires SysInv(x) && x.ch.open
    ensures var x' := Closing(x);
      && x'.sched.ready == x.sched.ready + x.ch.readers + x.ch.writers
      && (forall t :: t in x.ch.readers + x.ch.writers ==> t in x'.sched.info && x'.sched.info[t].err == EPIPE)
      && x'.ch.readers == [] && x'.ch.writers == [] && !x'.ch.open
  {
    hide SysInv, WakeAll;
    CloseInv(x);
    assert x.sched.ready + (x.ch.readers + x.ch.writers) == x.sched.ready + x.ch.readers + x.ch.writers;
  }

  /** To the scheduler a move is a sequence of legal steps, so all that holds of its runs holds of runs with a channel. */
  lemma MoveIsSteps(x: Sys, m: Move) returns (steps: seq<Step>)
    requires Fair(x, m)
    ensures LegalRun(x.sched, steps) && Run(x.sched, steps) == Move1(x, m).sched
  {
    hide Wake, Yield, Legal, Run, LegalRun;
    RunNone(x.sched);
    steps := [];
    match m
    case ByScheduler(a) =>
      RunOne(x.sched, a);
      steps := [a];
    case DoRead(sec) =>
      if x.sched.control.Running? && x.ch.open {
        if x.ch.writers != [] {
          steps := WakeStep(x.sched, x.ch.writers[0], Ok);
        } else if x.ch.buffer == [] {
          steps := YieldStep(x.sched, sec, InRead);
        }
      }
    case DoWrite(msg, sec) =>
      if x.sched.control.Running? && x.ch.open {
        if x.ch.readers != [] {
          steps := WakeStep(x.sched, x.ch.readers[0], Ok);
        } else if |x.ch.buffer| >= x.ch.cap {
          steps := YieldStep(x.sched, sec, InWrite);
        }
      }
    case DoPost(msg) =>
      if x.ch.open && x.ch.readers != [] {
        steps := WakeStep(x.sched, x.ch.readers[0], Ok);
      }
    case DoClose =>
      if x.ch.open {
        var a := WakeAllSteps(x.sched, x.ch.readers, EPIPE);
        var b := WakeAllSteps(WakeAll(x.sched, x.ch.readers, EPIPE), x.ch.writers, EPIPE);
        RunJoin(x.sched, a, b);
        steps := a + b;
      }
  }

  lemma RunNone(s: State)
    ensures Run(s, []) == s && LegalRun(s, [])
  {
  }

  lemma WakeStep(s: State, t: Task, err: Errno) returns (steps: seq<Step>)
    ensures LegalRun(s, steps) && Run(s, steps) == Wake(s, t, err)
  {
    RunOne(s, DoWake(t, err));
    steps := [DoWake(t, err)];
  }

  lemma YieldStep(s: State, sec: Option<real>, wait: Wait) returns (steps: seq<Step>)
    ensures LegalRun(s, steps) && Run(s, steps) == Yield(s, sec, false, wait)
  {
    RunOne(s, DoYield(sec, false, wait));
    steps := [DoYield(sec, false, wait)];
  }

  lemma {:induction false} WakeAllSteps(s: State, q: seq<Task>, err: Errno) returns (steps: seq<Step>)
    ensures LegalRun(s, steps) && Run(s, steps) == WakeAll(s, q, err)
    decreases |q|
  {
    hide Wake, Run, LegalRun;
    if q == [] {
      RunNone(s);
      steps := [];
    } else {
      var a := WakeStep(s, q[0], err);
      var b := WakeAllSteps(Wake(s, q[0], err), q[1..], err);
      RunJoin(s, a, b);
      steps := a + b;
    }
  }
}
