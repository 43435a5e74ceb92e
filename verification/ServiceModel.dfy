/** A multi-service of service.lua as a state machine: requests queue up, the owner takes them in batches.

  The steps are what runs between two suspensions: a request up to where it blocks, its return with an
  answer or a time-out, the owner's rounds, the return of the handler, and service_schedule. */
module ServiceModel {
  import opened Tasks

  /** One call of request. */
  datatype Request = Request(id: nat, task: Task, req: Value, time: real)

  /** The fields of a task that matter to the service; `call` is the request the task is in. */
  datatype Fields = Fields(blocked: bool, req: Value, time: Option<real>, resp: Value, call: Option<Request>, woken: bool)

  /** The owner waits for requests, is about to go on after that wait, is in the handler, or starts a new round. */
  datatype Owner = Waiting | Roused | Handling | Looping

  datatype Answer = Answer(request: Request, value: Value)

  datatype Served = Served(requests: seq<Request>, outputs: seq<Value>)

  datatype Svc = Svc(
    max: nat,                  // max_concurrent
    now: real,
    queue: seq<Request>,       // svc_taskq
    nreq: int,
    limit: Option<nat>,        // svc_nwait; None is 0x7fffffff
    inreqing: bool,
    inresping: bool,
    owner: Owner,
    ownerBlocked: bool,        // the owner's t_blockedby is the service
    batch: seq<Request>,       // svc_taskarr up to svc_nhandle
    started: real,             // svc_tmhandle
    outputs: seq<Value>,       // svc_resparr
    info: map<Task, Fields>,
    calls: nat,                // number of requests so far
    taken: seq<Request>,       // history: requests in the order they came into batches
    served: seq<Served>,       // history: batches the handler has returned from
    answers: seq<Answer>)      // history: what requests have returned

  /** What marks a request that is no longer in the queue. */
  const MARK := Value(0xf0403023)

  ghost function Blank(): Fields { Fields(false, Nothing, None, Nothing, None, false) }

  ghost function Info(s: Svc, t: Task): Fields { if t in s.info then s.info[t] else Blank() }

  /** The queue without the request of `t`. */
  ghost function Dropped(q: seq<Request>, t: Task): seq<Request> {
    if q == [] then [] else if q[0].task == t then q[1..] else [q[0]] + Dropped(q[1..], t)
  }

  // ---------- the steps ----------

  /** multi_service_request up to where it blocks. */
  ghost function Ask(s: Svc, t: Task, req: Value): Svc {
    if Info(s, t).call.Some? then s
    else
      var r := Request(s.calls, t, req, s.now);
      var nreq := s.nreq + 1;
      s.(calls := s.calls + 1, queue := s.queue + [r], nreq := nreq,
         info := s.info[t := Info(s, t).(blocked := true, req := req, time := Some(s.now), call := Some(r), woken := false)],
         inreqing := s.inreqing || (s.limit.Some? && nreq >= s.limit.value && s.ownerBlocked))
  }

  /** The wait of a request is over without an answer. */
  ghost function Expire(s: Svc, t: Task): Svc {
    var f := Info(s, t);
    if f.call.None? || f.woken then s
    else
      var left := s.(info := s.info[t := f.(time := None, call := None)]);
      if f.req != MARK then left.(queue := Dropped(s.queue, t), nreq := s.nreq - 1) else left
  }

  /** A request that was woken returns its answer. */
  ghost function Return(s: Svc, t: Task): Svc {
    var f := Info(s, t);
    if f.call.None? || !f.woken then s
    else s.(info := s.info[t := f.(call := None, woken := false)], answers := s.answers + [Answer(f.call.value, f.resp)])
  }

  /** The owner blocks until enough requests are there, or its interval is over. */
  ghost function Pause(s: Svc): Svc { s.(owner := Waiting, ownerBlocked := true, limit := Some(s.max)) }

  ghost function Marked(m: map<Task, Fields>, batch: seq<Request>): map<Task, Fields>
    decreases |batch|
  {
    if batch == [] then m
    else
      var t := batch[0].task;
      Marked(m[t := (if t in m then m[t] else Blank()).(req := MARK)], batch[1..])
  }

  /** As many of the first requests as the service takes at once. */
  ghost function Count(s: Svc): nat { if |s.queue| <= s.max then |s.queue| else s.max }

  ghost function Take(s: Svc): Svc {
    var batch := s.queue[..Count(s)];
    s.(owner := Handling, limit := None, batch := batch, queue := s.queue[Count(s)..], nreq := s.nreq - |batch|, started := s.now,
       info := Marked(s.info, batch), taken := s.taken + batch)
  }

  /** The interval is over; the timer leaves t_blockedby as it is. */
  ghost function Rouse(s: Svc): Svc { if s.owner.Waiting? then s.(owner := Roused) else s }

  /** A round of multi_serve, from its start or from the end of its wait. */
  ghost function Round(s: Svc): Svc {
    if s.owner.Looping? && (s.nreq < s.max || s.inresping) then Pause(s)
    else if s.owner.Looping? || s.owner.Roused? then
      var go := if s.owner.Roused? then s.(limit := None) else s;
      if s.inresping || Count(s) == 0 then go.(owner := Looping) else Take(go)
    else s
  }

  /** The handler returns with the slots of the batch filled in. */
  ghost function HandlerReturns(s: Svc, outputs: seq<Value>): Svc {
    if s.owner.Handling? && |outputs| == |s.batch| then
      s.(owner := Looping, inresping := true, outputs := outputs, served := s.served + [Served(s.batch, outputs)])
    else s
  }

  /** The first half of service_schedule: the owner is woken if it waits for requests. */
  ghost function WakeOwner(s: Svc): Svc {
    if s.inreqing && s.ownerBlocked then
      s.(inreqing := false, ownerBlocked := false, owner := if s.owner.Waiting? then Roused else s.owner)
    else s
  }

  /** The test that a task still waits for the answer of the batch. */
  ghost predicate Due(s: Svc, t: Task) { Info(s, t).blocked && Info(s, t).time.Some? && Info(s, t).time.value <= s.started }

  ghost function Delivered(s: Svc, i: nat): Svc
    decreases |s.batch| - i
  {
    if i >= |s.batch| || i >= |s.outputs| then s
    else
      var t := s.batch[i].task;
      var one := if Due(s, t) then s.(info := s.info[t := Info(s, t).(blocked := false, resp := s.outputs[i], woken := true)]) else s;
      Delivered(one, i + 1)
  }

  /** The second half: the answers of a batch are handed out. */
  ghost function Respond(s: Svc): Svc {
    if s.inresping then
      Delivered(s.(inreqing := s.inreqing || (s.limit.Some? && s.nreq >= s.limit.value)), 0).(inresping := false)
    else s
  }

  /** service_schedule. */
  ghost function Schedule(s: Svc): Svc { Respond(WakeOwner(s)) }

  /** A task outside of a request blocks on something else. */
  ghost function Elsewhere(s: Svc, t: Task): Svc {
    if Info(s, t).call.None? then s.(info := s.info[t := Info(s, t).(blocked := false)]) else s
  }

  ghost function Tick(s: Svc, now: real): Svc { if now >= s.now then s.(now := now) else s }

  datatype Step = DoAsk(task: Task, req: Value) | DoExpire(task: Task) | DoReturn(task: Task) | DoElsewhere(task: Task)
                | DoRouse | DoRound | DoHandlerReturns(outputs: seq<Value>) | DoSchedule | DoTick(now: real)

  ghost function Apply(s: Svc, a: Step): Svc {
    match a
    case DoAsk(t, req) => Ask(s, t, req)
    case DoExpire(t) => Expire(s, t)
    case DoReturn(t) => Return(s, t)
    case DoElsewhere(t) => Elsewhere(s, t)
    case DoRouse => Rouse(s)
    case DoRound => Round(s)
    case DoHandlerReturns(outputs) => HandlerReturns(s, outputs)
    case DoSchedule => Schedule(s)
    case DoTick(now) => Tick(s, now)
  }

  ghost function Run(s: Svc, steps: seq<Step>): Svc
    decreases |steps|
  {
    if |steps| == 0 then s else Run(Apply(s, steps[0]), steps[1..])
  }

  ghost function Created(max: nat, now: real): Svc {
    Svc(max, now, [], 0, None, false, false, Looping, false, [], now, [], map[], 0, [], [], [])
  }
}
