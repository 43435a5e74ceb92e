/** A message channel on top of the scheduler, as a state machine.

  A read or a write runs, up to where it blocks, in one step of the task in control; where a later
  step of the scheduler makes the blocked call return, the rest of the call belongs to that step.
  Every write and every post is numbered, so that equal messages of different calls can be told apart. */
module ChannelModel {
  import opened RbShape
  import opened Tasks
  import opened SchedModel
  import opened TaskQueues

  /** A message and the number of the call that brought it. */
  datatype Entry = Entry(id: nat, msg: Value)

  datatype Parcel = Parcel(task: Task, entry: Entry)

  /** What a write or a post has told its caller. */
  datatype Reply = Reply(id: nat, err: Errno)

  datatype Chan = Chan(
    cap: nat,
    open: bool,
    buffer: seq<Entry>,       // the ring, oldest message first
    readers: seq<Task>,       // ch_rtaskq
    writers: seq<Task>,       // ch_wtaskq
    req: map<Task, Entry>,    // t_svcreq: of tasks in a write their message, of woken readers the message for them
    calls: nat,               // number of writes and posts so far
    accepted: seq<Entry>,     // history: messages in the order they were taken from their writers
    taken: seq<Parcel>,       // history: messages in the order they were assigned to a reader
    returned: seq<Parcel>,    // history: messages in the order reads returned them
    dropped: seq<Entry>,      // what was in the ring when the channel was closed
    refused: set<nat>,        // calls whose message was not accepted
    replies: seq<Reply>)      // history: the results of writes and posts
  {
    /** The messages of the waiting writers. */
    ghost function Offers(): seq<Entry> { seq(|writers|, i requires 0 <= i < |writers| => if writers[i] in req then req[writers[i]] else Entry(0, Nothing)) }

    /** Everything accepted or on offer, in order. */
    ghost function Line(): seq<Entry> { accepted + Offers() }
  }

  datatype Sys = Sys(sched: State, ch: Chan)

  ghost function Contents(q: seq<Parcel>): seq<Entry> { seq(|q|, i requires 0 <= i < |q| => q[i].entry) }

  ghost function Ids(q: seq<Entry>): set<nat> { set e | e in q :: e.id }

  // ---------- the calls ----------

  /** Messages leave through the hands of `t`, which returns `e` at once. */
  ghost function Given(ch: Chan, t: Task, e: Entry): Chan {
    ch.(taken := ch.taken + [Parcel(t, e)], returned := ch.returned + [Parcel(t, e)])
  }

  /** The first waiting writer has its message accepted. */
  ghost function Admitted(ch: Chan): Chan
    requires ch.writers != []
  {
    ch.(accepted := ch.accepted + [ch.Offers()[0]], writers := ch.writers[1..])
  }

  ghost function Read(x: Sys, sec: Option<real>): Sys {
    var ch := x.ch;
    if !x.sched.control.Running? || !ch.open then x
    else
      var t := x.sched.control.task;
      if ch.buffer != [] then
        var rest := Given(ch.(buffer := ch.buffer[1..]), t, ch.buffer[0]);
        if ch.writers != [] then
          Sys(Wake(x.sched, ch.writers[0], Ok), Admitted(rest.(buffer := rest.buffer + [ch.Offers()[0]])))
        else Sys(x.sched, rest)
      else if ch.writers != [] then
        Sys(Wake(x.sched, ch.writers[0], Ok), Given(Admitted(ch), t, ch.Offers()[0]))
      else
        Sys(Yield(x.sched, sec, false, InRead), ch.(readers := ch.readers + [t]))
  }

  /** A message goes straight to the first waiting reader. */
  ghost function Handed(ch: Chan, e: Entry): Chan
    requires ch.readers != []
  {
    var t := ch.readers[0];
    ch.(readers := ch.readers[1..], req := ch.req[t := e], accepted := ch.accepted + [e], taken := ch.taken + [Parcel(t, e)])
  }

  ghost function Replied(ch: Chan, id: nat, err: Errno): Chan {
    ch.(replies := ch.replies + [Reply(id, err)], refused := if err.Ok? then ch.refused else ch.refused + {id})
  }

  /** What write and post share: a reader or the ring takes the message, if one of them can. */
  ghost function Accept(x: Sys, e: Entry): Sys
    requires x.ch.readers != [] || |x.ch.buffer| < x.ch.cap
  {
    var ch := x.ch;
    if ch.readers != [] then Sys(Wake(x.sched, ch.readers[0], Ok), Replied(Handed(ch, e), e.id, Ok))
    else Sys(x.sched, Replied(ch.(buffer := ch.buffer + [e], accepted := ch.accepted + [e]), e.id, Ok))
  }

  ghost function Numbered(ch: Chan): Chan { ch.(calls := ch.calls + 1) }

  ghost function Write(x: Sys, msg: Value, sec: Option<real>): Sys {
    if !x.sched.control.Running? then x
    else
      var t, e, ch := x.sched.control.task, Entry(x.ch.calls, msg), Numbered(x.ch);
      if !ch.open then Sys(x.sched, Replied(ch, e.id, EPIPE))
      else if ch.readers != [] || |ch.buffer| < ch.cap then Accept(Sys(x.sched, ch), e)
      else Sys(Yield(x.sched, sec, false, InWrite), ch.(writers := ch.writers + [t], req := ch.req[t := e]))
  }

  /** Never blocks; on a closed channel it raises an error. */
  ghost function Post(x: Sys, msg: Value): Sys {
    var e, ch := Entry(x.ch.calls, msg), Numbered(x.ch);
    if ch.open && (ch.readers != [] || |ch.buffer| < ch.cap) then Accept(Sys(x.sched, ch), e)
    else Sys(x.sched, Replied(ch, e.id, EPIPE))
  }

  ghost function WakeAll(s: State, q: seq<Task>, err: Errno): State
    decreases |q|
  {
    if q == [] then s else WakeAll(Wake(s, q[0], err), q[1..], err)
  }

  ghost function Closed(ch: Chan): Chan {
    ch.(open := false, readers := [], writers := [], buffer := [], dropped := ch.buffer, refused := ch.refused + Ids(ch.Offers()))
  }

  ghost function Closing(x: Sys): Sys {
    if x.ch.open then Sys(WakeAll(WakeAll(x.sched, x.ch.readers, EPIPE), x.ch.writers, EPIPE), Closed(x.ch)) else x
  }

  /** The rest of a read, once do_yield has returned to it. */
  ghost function ReadEnd(ch: Chan, t: Task, err: Errno): Chan {
    if !err.Ok? then if ch.open then ch.(readers := Unlinked(ch.readers, t)) else ch
    else if t in ch.req then ch.(returned := ch.returned + [Parcel(t, ch.req[t])], req := ch.req - {t})
    else ch
  }

  ghost function WriteEnd(ch: Chan, t: Task, err: Errno): Chan {
    if t !in ch.req then ch
    else
      var rest := if !err.Ok? && ch.open then ch.(writers := Unlinked(ch.writers, t)) else ch;
      Replied(rest.(req := rest.req - {t}), ch.req[t].id, err)
  }

  ghost function Continue(ch: Chan, r: Return): Chan {
    match r.wait
    case InRead => ReadEnd(ch, r.task, r.err)
    case InWrite => WriteEnd(ch, r.task, r.err)
    case _ => ch
  }

  /** A step of the scheduler, with the rest of a call of the channel if it makes one return. */
  ghost function Following(x: Sys, s: State): Sys {
    Sys(s, if |s.answers| > |x.sched.answers| then Continue(x.ch, s.answers[|s.answers| - 1]) else x.ch)
  }

  // ---------- runs ----------

  datatype Move = ByScheduler(step: Step) | DoRead(sec: Option<real>) | DoWrite(msg: Value, sec: Option<real>) | DoPost(msg: Value) | DoClose

  ghost function Move1(x: Sys, m: Move): Sys {
    match m
    case ByScheduler(a) => Following(x, Apply(x.sched, a))
    case DoRead(sec) => Read(x, sec)
    case DoWrite(msg, sec) => Write(x, msg, sec)
    case DoPost(msg) => Post(x, msg)
    case DoClose => Closing(x)
  }

  ghost function Moves(x: Sys, ms: seq<Move>): Sys
    decreases |ms|
  {
    if |ms| == 0 then x else Moves(Move1(x, ms[0]), ms[1..])
  }

  ghost function Opened(now: real, cap: nat): Sys {
    Sys(Init(now), Chan(cap, true, [], [], [], map[], 0, [], [], [], [], {}, []))
  }

  /** In a read or a write of the channel. */
  ghost predicate Inside(s: State, t: Task) {
    s.Alive(t) && s.info[t].frame.Some? && (s.info[t].frame.value.wait.InRead? || s.info[t].frame.value.wait.InWrite?)
  }

  /** Only the channel wakes the tasks waiting in it, they are not killed there, and the channel is not
    used by a task that was killed before it first ran. */
  ghost predicate Fair(x: Sys, m: Move) {
    match m
    case ByScheduler(a) =>
      && Legal(x.sched, a)
      && (a.DoYield? ==> !a.wait.InRead? && !a.wait.InWrite?)
      && (a.DoWake? || a.DoKill? ==> !Inside(x.sched, a.task))
    case DoRead(_) => x.sched.control.Running? && x.sched.Alive(x.sched.control.task) ==> !x.sched.info[x.sched.control.task].sig
    case DoWrite(_, _) => x.sched.control.Running? && x.sched.Alive(x.sched.control.task) ==> !x.sched.info[x.sched.control.task].sig
    case DoPost(_) => true
    case DoClose => true
  }

  ghost predicate FairRun(x: Sys, ms: seq<Move>)
    decreases |ms|
  {
    |ms| != 0 ==> Fair(x, ms[0]) && FairRun(Move1(x, ms[0]), ms[1..])
  }

  // ---------- the invariant ----------

  /** Waiting readers mean an empty ring and no waiting writers, waiting writers a full ring. */
  ghost predicate Bounds(ch: Chan) {
    && |ch.buffer| <= ch.cap
    && (ch.readers != [] ==> ch.buffer == [] && ch.writers == [])
    && (ch.writers != [] ==> |ch.buffer| == ch.cap)
    && NoDup(ch.readers) && NoDup(ch.writers)
    && (!ch.open ==> ch.readers == [] && ch.writers == [] && ch.buffer == [])
    && (ch.open ==> ch.dropped == [])
  }

  /** What the scheduler and the channel say of a task in one of its calls. */
  ghost predicate InsideWell(x: Sys, t: Task)
    requires t in x.sched.info && x.sched.info[t].frame.Some?
  {
    var s, ch, i := x.sched, x.ch, x.sched.info[t];
    && !i.sig && !s.Current(t)
    && (i.frame.value.wait.InRead? ==>
      && (!s.Queued(t) ==> t in ch.readers && t !in ch.req)
      && (s.Queued(t) ==> if t in ch.req then i.err.Ok? else i.err == EPIPE && !ch.open))
    && (i.frame.value.wait.InWrite? ==>
      && t in ch.req
      && (!s.Queued(t) ==> t in ch.writers)
      && (s.Queued(t) ==> i.err.Ok? || (i.err == EPIPE && !ch.open))
      && (s.Queued(t) ==> if i.err.Ok? then ch.req[t] in ch.accepted else ch.req[t].id in ch.refused))
  }

  ghost predicate MemberWell(x: Sys, t: Task)
    requires t in x.sched.info
  {
    && (Inside(x.sched, t) ==> InsideWell(x, t))
    && (t in x.ch.readers ==> Inside(x.sched, t) && x.sched.info[t].frame.value.wait.InRead? && !x.sched.Queued(t))
    && (t in x.ch.writers ==> Inside(x.sched, t) && x.sched.info[t].frame.value.wait.InWrite? && !x.sched.Queued(t))
    && (t in x.ch.req ==> Inside(x.sched, t))
  }

  ghost predicate Members(x: Sys) {
    && (forall t :: t in x.sched.info ==> MemberWell(x, t))
    && (forall t :: t in x.ch.readers ==> t in x.sched.info)
    && (forall t :: t in x.ch.writers ==> t in x.sched.info)
    && (forall t :: t in x.ch.req ==> t in x.sched.info)
  }

  ghost predicate Rising(q: seq<Entry>) { forall i, j :: 0 <= i < j < |q| ==> q[i].id < q[j].id }

  /** Messages come out in the order they went in, and those went in in the order of the calls. */
  ghost predicate InOrder(ch: Chan) {
    && ch.accepted == Contents(ch.taken) + ch.buffer + ch.dropped
    && Rising(ch.Line())
  }

  /** Every call is accounted for: its message accepted, on offer, or refused, and its reply says so. */
  ghost predicate CallsKept(ch: Chan) {
    && (forall i :: 0 <= i < ch.calls <==> i in Ids(ch.Line()) || i in ch.refused)
    && Ids(ch.Line()) !! ch.refused
    && (forall r :: r in ch.replies ==> if r.err.Ok? then r.id in Ids(ch.accepted) else r.id in ch.refused)
  }

  /** What was assigned to a reader is returned by it once, now or when the reader is resumed. */
  ghost predicate Delivery(x: Sys) {
    var s, ch := x.sched, x.ch;
    && (forall i, j :: 0 <= i < j < |ch.returned| ==> ch.returned[i] != ch.returned[j])
    && (forall p :: p in ch.returned ==> p in ch.taken)
    && (forall p :: p in ch.taken && p !in ch.returned ==> Holding(x, p))
    && (forall t :: t in ch.req && s.Alive(t) && s.info[t].frame.Some? && s.info[t].frame.value.wait.InRead? ==>
      Parcel(t, ch.req[t]) in ch.taken && Parcel(t, ch.req[t]) !in ch.returned)
  }

  /** The reader is queued with its message. */
  ghost predicate Holding(x: Sys, p: Parcel) {
    p.task in x.ch.req && x.ch.req[p.task] == p.entry && Inside(x.sched, p.task) && x.sched.info[p.task].frame.value.wait.InRead?
  }

  ghost predicate SysInv(x: Sys) {
    Inv(x.sched) && Bounds(x.ch) && Members(x) && InOrder(x.ch) && CallsKept(x.ch) && Delivery(x)
  }
}
