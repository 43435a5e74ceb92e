/** What the invariant of a multi-service means, and exactly where its fairness assumptions are needed. */
module ServiceTheorems {
  import opened Tasks
  import opened ServiceModel
  import opened ServiceInvariant

  lemma Reached(max: nat, now: real, steps: seq<Step>) returns (s: Svc)
    requires FairRun(Created(max, now), steps)
    ensures s == Run(Created(max, now), steps) && SvcInv(s)
  {
    hide SvcInv, FairRun;
    CreatedInv(max, now);
    RunInv(Created(max, now), steps);
    s := Run(Created(max, now), steps);
  }

  /** Over every run the count is the length of the queue, and batches take requests in the order in which
    they were made, none twice, no more than `max` at once. */
  lemma TakenInOrder(max: nat, now: real, steps: seq<Step>)
    requires FairRun(Created(max, now), steps)
    ensures var s := Run(Created(max, now), steps);
      && s.nreq == |s.queue| && |s.batch| <= max
      && (forall i, j :: 0 <= i < j < |s.taken + s.queue| ==> (s.taken + s.queue)[i].id < (s.taken + s.queue)[j].id)
  {
    hide SvcInv, FairRun, Run;
    var s := Reached(max, now, steps);
    MaxKept(Created(max, now), steps);
    TakenInOrderNow(s);
  }

  lemma TakenInOrderNow(s: Svc)
    requires SvcInv(s)
    ensures s.nreq == |s.queue| && |s.batch| <= s.max && Rising(s.taken + s.queue)
  {
    hide Rising, Calls, Batched, Answers, Apart;
  }

  lemma {:induction false} MaxKept(s: Svc, steps: seq<Step>)
    ensures Run(s, steps).max == s.max
    decreases |steps|
  {
    if |steps| != 0 {
      StepMax(s, steps[0]);
      MaxKept(Apply(s, steps[0]), steps[1..]);
    }
  }

  lemma StepMax(s: Svc, a: Step)
    ensures Apply(s, a).max == s.max
  {
    hide Dropped, Marked;
    if a.DoSchedule? && WakeOwner(s).inresping {
      var s1 := WakeOwner(s);
      DeliveredMax(s1.(inreqing := s1.inreqing || (s1.limit.Some? && s1.nreq >= s1.limit.value)), 0);
    }
  }

  lemma {:induction false} DeliveredMax(s: Svc, i: nat)
    ensures Delivered(s, i) == s.(info := Delivered(s, i).info)
    decreases |s.batch| - i
  {
    if i < |s.batch| && i < |s.outputs| {
      DeliveredMax(Woken(s, i), i + 1);
    }
  }

  /** Over every run, whatever times out, no request is answered twice, and each answer is what the handler
    put into the slot that the request had in its batch. */
  lemma AnsweredOnce(max: nat, now: real, steps: seq<Step>)
    requires FairRun(Created(max, now), steps)
    ensures var s := Run(Created(max, now), steps);
      && (forall a :: a in s.answers ==> Genuine(s.served, a))
      && (forall i, j :: 0 <= i < j < |s.answers| ==> s.answers[i].request.id != s.answers[j].request.id)
  {
    hide SvcInv, FairRun, Run;
    var s := Reached(max, now, steps);
    AnsweredOnceNow(s);
  }

  lemma AnsweredOnceNow(s: Svc)
    requires SvcInv(s)
    ensures Answers(s) && forall a :: a in s.answers ==> Genuine(s.served, a)
  {
    hide Calls, Batched, Apart, Queued, Ordered, Genuine;
  }

  /** Over every run, a task in a request is in the queue, or in the batch that is open, or has its answer. */
  lemma NobodyForgotten(max: nat, now: real, steps: seq<Step>, t: Task)
    requires FairRun(Created(max, now), steps)
    requires var s := Run(Created(max, now), steps); t in s.info && s.info[t].call.Some? && !s.info[t].woken
    ensures var s := Run(Created(max, now), steps);
      s.info[t].call.value in s.queue || (s.info[t].call.value in s.batch && (s.owner.Handling? || s.inresping))
  {
    hide SvcInv, FairRun, Run;
    var s := Reached(max, now, steps);
    CallOf(s, t);
  }

  lemma CallOf(s: Svc, t: Task)
    requires SvcInv(s) && t in s.info
    ensures CallWell(s, t)
  {
  }

  /** Until its answers are handed out, no step overwrites the arrays of a batch. */
  lemma BatchKept(s: Svc, a: Step)
    requires SvcInv(s) && s.inresping && !a.DoSchedule?
    ensures var s' := Apply(s, a); s'.inresping && s'.batch == s.batch && s'.outputs == s.outputs && s'.started == s.started
  {
    hide Calls, Queued, Ordered, Answers, Apart, Dropped;
  }

  /** Handing out leaves nobody of the batch waiting. */
  lemma BatchAnswered(s: Svc, i: nat)
    requires SvcInv(s) && s.inresping && i < |s.batch|
    requires Info(s, s.batch[i].task).call == Some(s.batch[i]) && !Info(s, s.batch[i].task).woken
    ensures var f := Info(Schedule(s), s.batch[i].task); f.woken && f.resp == s.outputs[i] && f.call == Some(s.batch[i])
  {
    OpenBatch(s, i);
    hide SvcInv, Schedule;
    Responded(s, i);
  }

  /** What service_schedule does to a task of the batch. */
  lemma Responded(s: Svc, i: nat)
    requires s.inresping && i < |s.batch| && |s.outputs| == |s.batch|
    requires forall j, l :: 0 <= j < l < |s.batch| ==> s.batch[j].task != s.batch[l].task
    ensures var t := s.batch[i].task; var f := Info(s, t);
      Info(Schedule(s), t) == if Due(s, t) then f.(blocked := false, resp := s.outputs[i], woken := true) else f
  {
    hide Delivered;
    var s1 := WakeOwner(s);
    DeliveredTo(s1.(inreqing := s1.inreqing || (s1.limit.Some? && s1.nreq >= s1.limit.value)), 0, i);
  }

  lemma OpenBatch(s: Svc, i: nat)
    requires SvcInv(s) && s.inresping && i < |s.batch|
    ensures |s.outputs| == |s.batch| && forall j, k :: 0 <= j < k < |s.batch| ==> s.batch[j].task != s.batch[k].task
    ensures Info(s, s.batch[i].task).call == Some(s.batch[i]) && !Info(s, s.batch[i].task).woken ==> Due(s, s.batch[i].task)
    ensures s.now >= s.started
  {
    hide Queued, Ordered, Answers, Apart, Genuine;
    var t := s.batch[i].task;
    assert s.batch[i] in s.batch;
    assert CallWell(s, t);
  }

  /** The slot of a task that is due reaches it, the others do not touch it. */
  lemma {:induction false} DeliveredTo(s: Svc, k: nat, i: nat)
    requires k <= i < |s.batch| && |s.outputs| == |s.batch|
    requires forall j, l :: 0 <= j < l < |s.batch| ==> s.batch[j].task != s.batch[l].task
    ensures var t := s.batch[i].task; var f := Info(s, t); var f' := Info(Delivered(s, k), t);
      if Due(s, t) then f' == f.(blocked := false, resp := s.outputs[i], woken := true) else f' == f
    decreases i - k
  {
    hide Delivered, Woken, Info, Due;
    var t := s.batch[i].task;
    DeliveredStep(s, k);
    WokenFields(s, k, t);
    if k < i {
      assert s.batch[k].task != t;
      DeliveredTo(Woken(s, k), k + 1, i);
    } else {
      DeliveredPast(Woken(s, i), i + 1, t);
    }
  }

  lemma WokenFields(s: Svc, k: nat, t: Task)
    requires k < |s.batch| == |s.outputs|
    ensures var s' := Woken(s, k); var f := Info(s, t);
      && s' == s.(info := s'.info)
      && (s.batch[k].task != t ==> Info(s', t) == f && (Due(s', t) <==> Due(s, t)))
      && (s.batch[k].task == t ==> Info(s', t) == if Due(s, t) then f.(blocked := false, resp := s.outputs[k], woken := true) else f)
  {
  }

  lemma {:induction false} DeliveredPast(s: Svc, k: nat, t: Task)
    requires |s.outputs| == |s.batch| && forall j :: k <= j < |s.batch| ==> s.batch[j].task != t
    ensures Info(Delivered(s, k), t) == Info(s, t)
    decreases |s.batch| - k
  {
    if k < |s.batch| {
      DeliveredPast(Woken(s, k), k + 1, t);
    }
  }

  /** An owner that waits while enough requests are there is woken by one of the next two passes. */
  lemma OwnerWoken(s: Svc)
    requires SvcInv(s) && s.owner.Waiting? && s.nreq >= s.max
    ensures Schedule(s).owner.Roused? || Schedule(Schedule(s)).owner.Roused?
  {
    hide Calls, Queued, Ordered, Answers, Apart, Batched;
    var s1 := WakeOwner(s);
    DeliveredMax(s1.(inreqing := s1.inreqing || (s1.limit.Some? && s1.nreq >= s1.limit.value)), 0);
    var s2 := Schedule(s);
    var s3 := WakeOwner(s2);
    DeliveredMax(s3.(inreqing := s3.inreqing || (s3.limit.Some? && s3.nreq >= s3.limit.value)), 0);
  }

  /** A task whose request timed out in an open batch and which asks again is given the answer of its old
    request exactly when the clock still shows the time at which the handler was started; whether the handler
    has returned when it asks, */
  lemma StaleAnswer(s: Svc, i: nat, req: Value)
    requires SvcInv(s) && s.inresping && i < |s.batch| && Info(s, s.batch[i].task).call.None?
    ensures var t := s.batch[i].task; var f := Info(Schedule(Ask(s, t, req)), t);
      f.call.Some? && f.call.value != s.batch[i] && (f.woken && f.resp == s.outputs[i] <==> s.now == s.started)
  {
    OpenBatch(s, i);
    OldRequest(s, i);
    hide SvcInv, Schedule;
    Responded(Ask(s, s.batch[i].task, req), i);
  }

  /** or still runs. */
  lemma StaleAnswerEarly(s: Svc, i: nat, req: Value, outputs: seq<Value>)
    requires SvcInv(s) && s.owner.Handling? && i < |s.batch| == |outputs| && Info(s, s.batch[i].task).call.None?
    ensures var t := s.batch[i].task; var f := Info(Schedule(HandlerReturns(Ask(s, t, req), outputs)), t);
      f.call.Some? && f.call.value != s.batch[i] && (f.woken && f.resp == outputs[i] <==> s.now == s.started)
  {
    OldRequest(s, i);
    RunningBatch(s);
    hide SvcInv, Schedule;
    Responded(HandlerReturns(Ask(s, s.batch[i].task, req), outputs), i);
  }

  lemma RunningBatch(s: Svc)
    requires SvcInv(s) && s.owner.Handling?
    ensures s.started <= s.now && forall j, k :: 0 <= j < k < |s.batch| ==> s.batch[j].task != s.batch[k].task
  {
    hide Queued, Ordered, Calls, Answers, Apart;
  }

  /** And it can happen: a request times out while the handler runs that was started at the same clock. */
  lemma StaleAnswerHappens(now: real, t: Task, req: Value, outputs: seq<Value>) returns (steps: seq<Step>)
    requires req != MARK && |outputs| == 1
    ensures FairRun(Created(1, now), steps) && SvcInv(Run(Created(1, now), steps))
    ensures var s := Run(Created(1, now), steps);
      var early, late := Info(Schedule(HandlerReturns(Ask(s, t, req), outputs)), t), Info(Schedule(Ask(HandlerReturns(s, outputs), t, req)), t);
      && s.batch == [Request(0, t, req, now)]
      && early.woken && early.call == Some(Request(1, t, req, now)) && early.resp == outputs[0]
      && late.woken && late.call == Some(Request(1, t, req, now)) && late.resp == outputs[0]
  {
    hide SvcInv, FairRun, Run, Schedule;
    var s;
    steps, s := TimedOutInBatch(now, t, req);
    CreatedInv(1, now);
    RunInv(Created(1, now), steps);
    StaleAnswerEarly(s, 0, req, outputs);
    HandlerReturnsInv(s, outputs);
    StaleAnswer(HandlerReturns(s, outputs), 0, req);
    CallStays(HandlerReturns(Ask(s, t, req), outputs), t);
    CallStays(Ask(HandlerReturns(s, outputs), t, req), t);
  }

  lemma TimedOutInBatch(now: real, t: Task, req: Value) returns (steps: seq<Step>, s: Svc)
    requires req != MARK
    ensures FairRun(Created(1, now), steps) && s == Run(Created(1, now), steps)
    ensures s.owner.Handling? && s.batch == [Request(0, t, req, now)] && s.now == s.started == now && s.calls == 1 && Info(s, t).call.None?
  {
    var s0, r := Created(1, now), Request(0, t, req, now);
    var s1 := Ask(s0, t, req);
    var s2 := Round(s1);
    s := Expire(s2, t);
    TakenAlone(s1, r);
    RunNothing(s);
    RunFirst(s2, DoExpire(t), [], s);
    RunFirst(s1, DoRound, [DoExpire(t)], s);
    RunFirst(s0, DoAsk(t, req), [DoRound, DoExpire(t)], s);
    steps := [DoAsk(t, req)] + ([DoRound] + ([DoExpire(t)] + []));
    assert [DoRound, DoExpire(t)] == [DoRound] + ([DoExpire(t)] + []);
  }

  lemma TakenAlone(s: Svc, r: Request)
    requires s.queue == [r] && s.nreq == 1 && s.max == 1 && s.owner.Looping? && !s.inresping && r.task in s.info
    ensures var s' := Round(s);
      && s'.batch == [r] && s'.owner.Handling? && s'.started == s.now == s'.now && s'.calls == s.calls
      && s'.info == s.info[r.task := s.info[r.task].(req := MARK)]
  {
    assert [r][1..] == [] && s.queue[..Count(s)] == [r];
    assert Marked(s.info, [r]) == Marked(s.info[r.task := s.info[r.task].(req := MARK)], []);
  }

  lemma RunNothing(s: Svc)
    ensures Run(s, []) == s && FairRun(s, [])
  {
  }

  lemma RunFirst(s: Svc, a: Step, steps: seq<Step>, s': Svc)
    requires Fair(s, a) && FairRun(Apply(s, a), steps) && Run(Apply(s, a), steps) == s'
    ensures FairRun(s, [a] + steps) && Run(s, [a] + steps) == s'
  {
    hide Apply, Fair;
    assert ([a] + steps)[1..] == steps;
  }

  lemma CallStays(s: Svc, t: Task)
    ensures Info(Schedule(s), t).call == Info(s, t).call
  {
    hide Delivered;
    var s1 := WakeOwner(s);
    if s1.inresping {
      DeliveredCalls(s1.(inreqing := s1.inreqing || (s1.limit.Some? && s1.nreq >= s1.limit.value)), 0, t);
    }
  }

  lemma {:induction false} DeliveredCalls(s: Svc, k: nat, t: Task)
    ensures Info(Delivered(s, k), t).call == Info(s, t).call
    decreases |s.batch| - k
  {
    if k < |s.batch| && k < |s.outputs| {
      DeliveredCalls(Woken(s, k), k + 1, t);
    }
  }

  lemma OldRequest(s: Svc, i: nat)
    requires SvcInv(s) && i < |s.batch|
    ensures s.batch[i].id < s.calls
  {
    hide Queued, Calls, Batched, Answers, Apart, Rising;
    assert s.batch[i] in s.batch;
    assert s.batch[i] in s.taken + s.queue;
  }

  /** A request that times out in the queue leaves it exactly when it is not the mark itself. */
  lemma MarkAsRequest(s: Svc, t: Task, req: Value)
    requires SvcInv(s) && Info(s, t).call.None?
    ensures Expire(Ask(s, t, req), t).queue == s.queue <==> req != MARK
  {
    var r := Request(s.calls, t, req, s.now);
    NoRequest(s, t);
    DroppedLast(s.queue, r);
  }

  lemma NoRequest(s: Svc, t: Task)
    requires SvcInv(s) && Info(s, t).call.None?
    ensures forall r :: r in s.queue ==> r.task != t
  {
    hide Calls, Ordered, Batched, Answers, Apart;
    forall r | r in s.queue ensures r.task != t {
      assert InLine(s, r);
    }
  }

  lemma {:induction false} DroppedLast(q: seq<Request>, r: Request)
    requires forall x :: x in q ==> x.task != r.task
    ensures Dropped(q + [r], r.task) == q
  {
    if q == [] {
      assert q + [r] == [r];
    } else {
      assert (q + [r])[1..] == q[1..] + [r];
      assert q[0] in q;
      DroppedLast(q[1..], r);
    }
  }
}
