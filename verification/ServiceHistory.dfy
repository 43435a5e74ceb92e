/** What a multi-service takes and hands out is what its callers asked and what its handler returned. */
module ServiceHistory {
  import opened Tasks
  import opened ServiceModel
  import opened ServiceInvariant

  /** The requests that the steps make, in order: the task and the request of the step, and the clock. */
  ghost function Asked(s: Svc, steps: seq<Step>): seq<(Task, Value, real)>
    decreases |steps|
  {
    if |steps| == 0 then []
    else
      var s' := Apply(s, steps[0]);
      (if s'.calls != s.calls && steps[0].DoAsk? then [(steps[0].task, steps[0].req, s.now)] else []) + Asked(s', steps[1..])
  }

  /** A request is the call that has its number. */
  ghost predicate Tells(log: seq<(Task, Value, real)>, r: Request) {
    r.id < |log| && log[r.id] == (r.task, r.req, r.time)
  }

  ghost predicate TrueTo(s: Svc, log: seq<(Task, Value, real)>) {
    && |log| == s.calls
    && (forall r :: r in s.queue ==> Tells(log, r))
    && (forall r :: r in s.taken ==> Tells(log, r))
    && (forall r :: r in s.batch ==> Tells(log, r))
    && (forall t :: t in s.info && s.info[t].call.Some? ==> Tells(log, s.info[t].call.value))
    && (forall a :: a in s.answers ==> Tells(log, a.request))
  }

  lemma {:induction false} DroppedSome(q: seq<Request>, t: Task)
    ensures forall r :: r in Dropped(q, t) ==> r in q
  {
    if q != [] && q[0].task != t {
      DroppedSome(q[1..], t);
    }
  }

  lemma ExpireTrue(s: Svc, t: Task, log: seq<(Task, Value, real)>)
    requires TrueTo(s, log)
    ensures TrueTo(Expire(s, t), log)
  {
    DroppedSome(s.queue, t);
    hide Dropped;
  }

  lemma {:induction false} MarkedCalls(m: map<Task, Fields>, batch: seq<Request>, t: Task)
    ensures t in Marked(m, batch) && Marked(m, batch)[t].call.Some? ==> t in m && m[t].call == Marked(m, batch)[t].call
    decreases |batch|
  {
    if batch != [] {
      var u := batch[0].task;
      MarkedCalls(m[u := (if u in m then m[u] else Blank()).(req := MARK)], batch[1..], t);
    }
  }

  lemma TakeTrue(s: Svc, log: seq<(Task, Value, real)>)
    requires TrueTo(s, log)
    ensures TrueTo(Take(s), log)
  {
    var batch, s' := s.queue[..Count(s)], Take(s);
    forall t | t in s'.info && s'.info[t].call.Some? ensures Tells(log, s'.info[t].call.value) {
      MarkedCalls(s.info, batch, t);
    }
    hide Marked;
    assert forall r :: r in batch ==> r in s.queue;
    assert forall r :: r in s.queue[Count(s)..] ==> r in s.queue;
  }

  lemma RoundTrue(s: Svc, log: seq<(Task, Value, real)>)
    requires TrueTo(s, log)
    ensures TrueTo(Round(s), log)
  {
    hide Take;
    TakeTrue(s, log);
    TakeTrue(s.(limit := None), log);
  }

  lemma {:induction false} DeliveredTrue(s: Svc, i: nat, log: seq<(Task, Value, real)>)
    requires TrueTo(s, log)
    ensures TrueTo(Delivered(s, i), log)
    decreases |s.batch| - i
  {
    if i < |s.batch| && i < |s.outputs| {
      DeliveredTrue(Woken(s, i), i + 1, log);
    }
  }

  lemma ScheduleTrue(s: Svc, log: seq<(Task, Value, real)>)
    requires TrueTo(s, log)
    ensures TrueTo(Schedule(s), log)
  {
    hide Delivered;
    var s1 := WakeOwner(s);
    DeliveredTrue(s1.(inreqing := s1.inreqing || (s1.limit.Some? && s1.nreq >= s1.limit.value)), 0, log);
  }

  lemma AskTrue(s: Svc, t: Task, req: Value, log: seq<(Task, Value, real)>)
    requires TrueTo(s, log)
    ensures TrueTo(Ask(s, t, req), log + if Info(s, t).call.None? then [(t, req, s.now)] else [])
    ensures Ask(s, t, req).calls == s.calls + if Info(s, t).call.None? then 1 else 0
  {
  }

  lemma StepTrue(s: Svc, a: Step, log: seq<(Task, Value, real)>)
    requires TrueTo(s, log)
    ensures var s' := Apply(s, a);
      TrueTo(s', log + if s'.calls != s.calls && a.DoAsk? then [(a.task, a.req, s.now)] else [])
      && (s'.calls != s.calls ==> a.DoAsk? && s'.calls == s.calls + 1)
  {
    hide Ask, Expire, Round, Schedule, Dropped;
    assert log + [] == log;
    match a
    case DoAsk(t, req) => AskTrue(s, t, req, log);
    case DoExpire(t) => ExpireTrue(s, t, log);
    case DoRound => RoundTrue(s, log);
    case DoSchedule => ScheduleTrue(s, log);
    case _ =>
  }

  lemma {:induction false} RunTrue(s: Svc, steps: seq<Step>, log: seq<(Task, Value, real)>)
    requires TrueTo(s, log)
    ensures TrueTo(Run(s, steps), log + Asked(s, steps))
    decreases |steps|
  {
    hide Apply, TrueTo;
    if |steps| == 0 {
      assert log + [] == log;
    } else {
      var s' := Apply(s, steps[0]);
      var more := if s'.calls != s.calls && steps[0].DoAsk? then [(steps[0].task, steps[0].req, s.now)] else [];
      StepTrue(s, steps[0], log);
      RunTrue(s', steps[1..], log + more);
      assert log + (more + Asked(s', steps[1..])) == log + more + Asked(s', steps[1..]);
    }
  }

  /** Over every run, whatever is queued, in the batch, taken, or answered, is a request as its step made it: its task,
    its value, and the clock. */
  lemma AsAsked(max: nat, now: real, steps: seq<Step>)
    ensures var s, log := Run(Created(max, now), steps), Asked(Created(max, now), steps);
      && s.calls == |log|
      && (forall r :: r in s.queue || r in s.taken || r in s.batch ==> Tells(log, r))
      && (forall a :: a in s.answers ==> Tells(log, a.request))
  {
    hide Run, Asked;
    RunTrue(Created(max, now), steps, []);
    assert [] + Asked(Created(max, now), steps) == Asked(Created(max, now), steps);
  }

  // ---------- the handler ----------

  /** What the handler found in its slots, and what it left there, each time that it returned. */
  ghost function Handled(s: Svc, steps: seq<Step>): seq<Served>
    decreases |steps|
  {
    if |steps| == 0 then []
    else
      (if steps[0].DoHandlerReturns? && s.owner.Handling? && |steps[0].outputs| == |s.batch| then [Served(s.batch, steps[0].outputs)] else [])
      + Handled(Apply(s, steps[0]), steps[1..])
  }

  lemma {:induction false} RunServed(s: Svc, steps: seq<Step>)
    ensures Run(s, steps).served == s.served + Handled(s, steps)
    decreases |steps|
  {
    hide Apply;
    if |steps| == 0 {
      assert s.served + [] == s.served;
    } else {
      StepServed(s, steps[0]);
      RunServed(Apply(s, steps[0]), steps[1..]);
      assert steps[0].DoHandlerReturns? && s.owner.Handling? && |steps[0].outputs| == |s.batch| ==>
        s.served + ([Served(s.batch, steps[0].outputs)] + Handled(Apply(s, steps[0]), steps[1..]))
        == s.served + [Served(s.batch, steps[0].outputs)] + Handled(Apply(s, steps[0]), steps[1..]);
      assert [] + Handled(Apply(s, steps[0]), steps[1..]) == Handled(Apply(s, steps[0]), steps[1..]);
    }
  }

  lemma StepServed(s: Svc, a: Step)
    ensures Apply(s, a).served ==
      if a.DoHandlerReturns? && s.owner.Handling? && |a.outputs| == |s.batch| then s.served + [Served(s.batch, a.outputs)] else s.served
  {
    hide Dropped, Marked, Delivered;
    if a.DoSchedule? {
      var s1 := WakeOwner(s);
      DeliveredServed(s1.(inreqing := s1.inreqing || (s1.limit.Some? && s1.nreq >= s1.limit.value)), 0);
    }
  }

  lemma {:induction false} DeliveredServed(s: Svc, i: nat)
    ensures Delivered(s, i).served == s.served
    decreases |s.batch| - i
  {
    if i < |s.batch| && i < |s.outputs| {
      DeliveredServed(Woken(s, i), i + 1);
    }
  }

  /** Over every run, the answers come from what the handler left in its slots when it returned. */
  lemma AsHandled(max: nat, now: real, steps: seq<Step>)
    ensures Run(Created(max, now), steps).served == Handled(Created(max, now), steps)
  {
    hide Run, Handled;
    RunServed(Created(max, now), steps);
    assert [] + Handled(Created(max, now), steps) == Handled(Created(max, now), steps);
  }

  /** A batch is as many of the first requests as there are and as the service takes at once. */
  lemma BatchIsFull(s: Svc)
    requires SvcInv(s) && !s.owner.Handling? && Round(s).owner.Handling?
    ensures var s' := Round(s);
      && s'.batch + s'.queue == s.queue && |s'.batch| > 0
      && |s'.batch| <= s.max && (|s'.batch| == s.max || s'.queue == [])
  {
    hide Calls, Ordered, Batched, Answers, Apart, Marked;
  }

  /** The owner takes a batch as soon as it goes on and there are requests, unless answers wait; at the start of a
    round only if there are enough. */
  lemma BatchTaken(s: Svc)
    requires SvcInv(s)
    ensures Round(s).owner.Handling? && !s.owner.Handling? <==>
      s.nreq > 0 && s.max > 0 && !s.inresping && (s.owner.Roused? || (s.owner.Looping? && s.nreq >= s.max))
  {
    hide Calls, Ordered, Batched, Answers, Apart, Marked;
  }
}
