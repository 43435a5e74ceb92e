/** Over every fair run of a multi-service, requests are counted right, taken in their order, and answered
  at most once, each with its own slot of the handler's output. */
module ServiceInvariant {
  import opened Tasks
  import opened ServiceModel

  /** A batch is with the handler, or its answers wait to be handed out. */
  ghost predicate Open(s: Svc) { s.owner.Handling? || s.inresping }

  /** The answer is what the handler put into the slot of the request. */
  ghost predicate Genuine(served: seq<Served>, a: Answer) {
    exists k, i :: 0 <= k < |served| && 0 <= i < |served[k].requests| && i < |served[k].outputs|
      && served[k].requests[i] == a.request && served[k].outputs[i] == a.value
  }

  /** The queue and its count, and what the queued tasks know of it. */
  ghost predicate Queued(s: Svc) {
    && s.nreq == |s.queue|
    && (forall r :: r in s.queue ==> InLine(s, r))
  }

  ghost predicate InLine(s: Svc, r: Request) {
    r.task in s.info && s.info[r.task].call == Some(r) && !s.info[r.task].woken && s.info[r.task].req == r.req && r.req != MARK
  }

  /** A task in a request is in the queue, in the open batch, or has its answer. */
  ghost predicate CallWell(s: Svc, t: Task)
    requires t in s.info
  {
    var f := s.info[t];
    && (f.call.None? ==> !f.woken && !(f.blocked && f.time.Some?))
    && (f.call.Some? ==> f.call.value.task == t && f.call.value.id < s.calls && f.call.value.time <= s.now)
    && (f.call.Some? && !f.woken ==>
      && f.blocked && f.time == Some(f.call.value.time)
      && (if f.req != MARK then f.call.value in s.queue else Open(s) && f.call.value in s.batch))
    && (f.call.Some? && f.woken ==> !f.blocked && Genuine(s.served, Answer(f.call.value, f.resp)))
  }

  ghost predicate Calls(s: Svc) { forall t :: t in s.info ==> CallWell(s, t) }

  ghost predicate Rising(q: seq<Request>) { forall i, j :: 0 <= i < j < |q| ==> q[i].id < q[j].id }

  /** Requests come into batches in the order in which they were made. */
  ghost predicate Ordered(s: Svc) {
    && Rising(s.taken + s.queue)
    && (forall r :: r in s.taken + s.queue ==> r.id < s.calls)
    && |s.batch| <= |s.taken| && s.batch == s.taken[|s.taken| - |s.batch|..] && |s.batch| <= s.max
  }

  /** While a batch is open, its arrays are those of the batch, and a task of it that has asked again did so later. */
  ghost predicate Batched(s: Svc) {
    && s.started <= s.now
    && (s.owner.Handling? ==> !s.inresping)
    && (s.inresping ==> |s.outputs| == |s.batch| && s.served != [] && s.served[|s.served| - 1] == Served(s.batch, s.outputs))
    && (Open(s) ==> forall r :: r in s.batch ==> r.time <= s.started && r.task in s.info && Later(s, r))
    && (Open(s) ==> forall i, j :: 0 <= i < j < |s.batch| ==> s.batch[i].task != s.batch[j].task)
  }

  /** A request made by the task of `r` after `r` was made when the clock had moved on. */
  ghost predicate Later(s: Svc, r: Request)
    requires r.task in s.info
  {
    var c := s.info[r.task].call;
    c.Some? && c.value != r ==> c.value.time > s.started
  }

  /** Every answer is genuine, and no request is answered twice. */
  ghost predicate Answers(s: Svc) {
    && (forall a :: a in s.answers ==> Genuine(s.served, a) && a.request.id < s.calls)
    && (forall i, j :: 0 <= i < j < |s.answers| ==> s.answers[i].request.id != s.answers[j].request.id)
    && (forall t :: t in s.info && s.info[t].call.Some? ==> Unanswered(s, s.info[t].call.value.id))
  }

  ghost predicate Unanswered(s: Svc, id: nat) { forall a :: a in s.answers ==> a.request.id != id }

  /** Different tasks are in different requests. */
  ghost predicate Apart(s: Svc) {
    forall t, u :: t in s.info && u in s.info && t != u && s.info[t].call.Some? && s.info[u].call.Some? ==> s.info[t].call.value.id != s.info[u].call.value.id
  }

  /** An owner that waits has set its limit, and will be woken once that is reached. */
  ghost predicate Attended(s: Svc) {
    && (s.owner.Waiting? ==> s.limit == Some(s.max) && s.ownerBlocked && (s.nreq >= s.max ==> s.inreqing || s.inresping))
    && (s.limit.Some? ==> s.limit.value == s.max && (s.owner.Waiting? || s.owner.Roused?))
  }

  ghost predicate SvcInv(s: Svc) { Queued(s) && Calls(s) && Ordered(s) && Batched(s) && Answers(s) && Apart(s) && Attended(s) }

  /** A request is not the mark itself, and one by a task whose earlier request is in the open batch is not
    made at the very time at which the handler was started. */
  ghost predicate Fair(s: Svc, a: Step) {
    a.DoAsk? ==> a.req != MARK && (Open(s) && (exists r :: r in s.batch && r.task == a.task) ==> s.now > s.started)
  }

  ghost predicate FairRun(s: Svc, steps: seq<Step>)
    decreases |steps|
  {
    |steps| != 0 ==> Fair(s, steps[0]) && FairRun(Apply(s, steps[0]), steps[1..])
  }

  // ---------- requests ----------

  lemma RisingPush(q: seq<Request>, r: Request)
    requires Rising(q) && forall x :: x in q ==> x.id < r.id
    ensures Rising(q + [r])
  {
  }

  /** A batch does not mind what happens to tasks, as long as none of them comes into a new request. */
  lemma BatchedKept(s: Svc, s': Svc)
    requires Batched(s) && s'.owner == s.owner && s'.inresping == s.inresping && s'.outputs == s.outputs && s'.served == s.served
    requires s'.batch == s.batch && s'.started == s.started && s'.now == s.now
    requires forall t :: t in s.info ==> t in s'.info && (s'.info[t].call == s.info[t].call || s'.info[t].call.None?)
    ensures Batched(s')
  {
    if Open(s) {
      forall r | r in s.batch ensures r.time <= s'.started && r.task in s'.info && Later(s', r) {
        assert Later(s, r);
      }
    }
  }

  lemma AskInv(s: Svc, t: Task, req: Value)
    requires SvcInv(s) && Fair(s, DoAsk(t, req))
    ensures SvcInv(Ask(s, t, req))
  {
    if Info(s, t).call.None? {
      hide Rising, Genuine, Calls, CallWell, Apart, Answers, Queued, Batched;
      var s', r := Ask(s, t, req), Request(s.calls, t, req, s.now);
      assert s'.taken + s'.queue == (s.taken + s.queue) + [r];
      RisingPush(s.taken + s.queue, r);
      AskCalls(s, t, req);
      AskLine(s, t, req);
      AskBatch(s, t, req);
    }
  }

  lemma AskLine(s: Svc, t: Task, req: Value)
    requires Queued(s) && Info(s, t).call.None? && req != MARK
    ensures Queued(Ask(s, t, req)) && Ask(s, t, req).nreq == s.nreq + 1
  {
    var s' := Ask(s, t, req);
    forall r | r in s'.queue ensures InLine(s', r) {
      assert r in s.queue ==> InLine(s, r);
    }
  }

  lemma AskBatch(s: Svc, t: Task, req: Value)
    requires Batched(s) && Fair(s, DoAsk(t, req)) && Info(s, t).call.None?
    ensures Batched(Ask(s, t, req))
  {
    var s' := Ask(s, t, req);
    if Open(s) {
      forall r | r in s.batch ensures Later(s', r) {
        assert Later(s, r);
      }
    }
  }

  lemma AskCalls(s: Svc, t: Task, req: Value)
    requires Calls(s) && Apart(s) && Answers(s) && Info(s, t).call.None? && req != MARK
    ensures var s' := Ask(s, t, req); Calls(s') && Apart(s') && Answers(s')
  {
    hide Genuine;
    var s' := Ask(s, t, req);
    forall u | u in s'.info ensures CallWell(s', u) {
      assert u != t ==> CallWell(s, u);
    }
    forall u | u in s'.info && u != t && s'.info[u].call.Some? ensures s'.info[u].call.value.id < s.calls {
      assert CallWell(s, u);
    }
    forall u | u in s'.info && s'.info[u].call.Some? ensures Unanswered(s', s'.info[u].call.value.id) {
      assert u != t ==> Unanswered(s, s.info[u].call.value.id);
    }
  }

  lemma {:induction false} DroppedAt(q: seq<Request>, k: nat)
    requires k < |q| && forall i :: 0 <= i < k ==> q[i].task != q[k].task
    ensures Dropped(q, q[k].task) == q[..k] + q[k + 1..]
  {
    if k > 0 {
      assert q[1..][k - 1] == q[k];
      forall i | 0 <= i < k - 1 ensures q[1..][i].task != q[k].task {
      }
      DroppedAt(q[1..], k - 1);
      assert q[..k] == [q[0]] + q[1..][..k - 1];
    }
  }

  /** The requests of the queue are those of different tasks. */
  lemma QueueApart(s: Svc, i: nat, j: nat)
    requires Queued(s) && Ordered(s) && i < j < |s.queue|
    ensures s.queue[i].task != s.queue[j].task
  {
    var n := |s.taken|;
    assert (s.taken + s.queue)[n + i] == s.queue[i] && (s.taken + s.queue)[n + j] == s.queue[j];
    assert s.queue[i] in s.queue && s.queue[j] in s.queue;
  }

  /** One request leaves the queue, the others stay. */
  lemma DroppedQueue(s: Svc, r: Request)
    requires Queued(s) && Ordered(s) && r in s.queue
    ensures |Dropped(s.queue, r.task)| == |s.queue| - 1
    ensures forall x :: x in Dropped(s.queue, r.task) <==> x in s.queue && x.task != r.task
    ensures Rising(s.taken + Dropped(s.queue, r.task))
    ensures forall x :: x in s.taken + Dropped(s.queue, r.task) ==> x in s.taken + s.queue
  {
    hide Queued, Rising;
    var q, n := s.queue, |s.taken|;
    var k :| 0 <= k < |q| && q[k] == r;
    forall i | 0 <= i < k ensures q[i].task != q[k].task { QueueApart(s, i, k); }
    forall i | k < i < |q| ensures q[i].task != q[k].task { QueueApart(s, k, i); }
    DroppedAt(q, k);
    OneLess(q, k);
    assert s.taken + (q[..k] + q[k + 1..]) == (s.taken + q)[..n + k] + (s.taken + q)[n + k + 1..];
    OneLessRising(s.taken + q, n + k);
  }

  lemma OneLess(q: seq<Request>, k: nat)
    requires k < |q| && forall i :: 0 <= i < |q| && i != k ==> q[i].task != q[k].task
    ensures forall x :: x in q[..k] + q[k + 1..] <==> x in q && x.task != q[k].task
  {
    var d := q[..k] + q[k + 1..];
    forall x | x in q && x.task != q[k].task ensures x in d {
      var i :| 0 <= i < |q| && q[i] == x;
      assert d[if i < k then i else i - 1] == x;
    }
    forall i | 0 <= i < |d| ensures d[i] in q && d[i].task != q[k].task {
      assert d[i] == q[if i < k then i else i + 1];
    }
  }

  lemma OneLessRising(q: seq<Request>, k: nat)
    requires k < |q| && Rising(q)
    ensures Rising(q[..k] + q[k + 1..]) && forall x :: x in q[..k] + q[k + 1..] ==> x in q
  {
    var d := q[..k] + q[k + 1..];
    forall i | 0 <= i < |d| ensures d[i] == q[if i < k then i else i + 1] {
    }
  }

  lemma ExpireInv(s: Svc, t: Task)
    requires SvcInv(s)
    ensures SvcInv(Expire(s, t))
  {
    var f, s' := Info(s, t), Expire(s, t);
    if f.call.Some? && !f.woken {
      hide Rising, Genuine, Calls, CallWell, Apart, Answers, Queued, Ordered, Batched, Expire;
      ExpiredFields(s, t);
      ExpiredQueue(s, t);
      ExpiredCalls(s, t);
      BatchedKept(s, s');
    }
  }

  lemma ExpiredFields(s: Svc, t: Task)
    requires t in s.info && s.info[t].call.Some? && !s.info[t].woken
    ensures var s' := Expire(s, t);
      s' == s.(info := s.info[t := s.info[t].(time := None, call := None)], queue := s'.queue, nreq := s'.nreq)
  {
    hide Dropped;
  }

  lemma ExpiredQueue(s: Svc, t: Task)
    requires Queued(s) && Ordered(s) && Calls(s) && t in s.info && s.info[t].call.Some? && !s.info[t].woken
    ensures Queued(Expire(s, t)) && Ordered(Expire(s, t)) && Expire(s, t).nreq <= s.nreq
    ensures forall x :: x in Expire(s, t).queue <==> x in s.queue && x.task != t
  {
    hide Rising, Genuine, Dropped;
    var q, s' := s.queue, Expire(s, t);
    assert CallWell(s, t);
    if s.info[t].req != MARK {
      DroppedQueue(s, s.info[t].call.value);
      q := Dropped(s.queue, t);
    } else {
      forall x | x in q ensures x.task != t {
        assert InLine(s, x);
      }
    }
    assert forall x :: x in q <==> x in s.queue && x.task != t;
    assert s'.queue == q && s'.nreq == |q|;
    forall r | r in q ensures InLine(s', r) {
      assert InLine(s, r);
    }
    ExpiredOrder(s, s');
  }

  lemma ExpiredOrder(s: Svc, s': Svc)
    requires Ordered(s) && s'.taken == s.taken && s'.batch == s.batch && s'.calls == s.calls && s'.max == s.max
    requires Rising(s'.taken + s'.queue) && forall x :: x in s'.taken + s'.queue ==> x in s.taken + s.queue
    ensures Ordered(s')
  {
    hide Rising;
  }

  lemma ExpiredCalls(s: Svc, t: Task)
    requires Calls(s) && Apart(s) && Answers(s) && t in s.info && s.info[t].call.Some? && !s.info[t].woken
    requires forall x :: x in Expire(s, t).queue <==> x in s.queue && x.task != t
    ensures var s' := Expire(s, t); Calls(s') && Apart(s') && Answers(s')
  {
    hide Genuine, Unanswered, CallWell, Expire;
    var s' := Expire(s, t);
    ExpiredFields(s, t);
    forall u | u in s'.info ensures CallWell(s', u) {
      ExpiredCall(s, t, u);
    }
    forall u | u in s'.info && s'.info[u].call.Some? ensures Unanswered(s', s'.info[u].call.value.id) {
      assert Unanswered(s, s.info[u].call.value.id);
      SameAnswers(s, s', s.info[u].call.value.id);
    }
  }

  lemma ExpiredCall(s: Svc, t: Task, u: Task)
    requires t in s.info && s.info[t].call.Some? && !s.info[t].woken && u in s.info && CallWell(s, u)
    requires forall x :: x in Expire(s, t).queue <==> x in s.queue && x.task != t
    ensures CallWell(Expire(s, t), u)
  {
    hide Genuine, Dropped;
    if u != t && s.info[u].call.Some? {
      assert s.info[u].call.value in Expire(s, t).queue <==> s.info[u].call.value in s.queue;
    }
  }

  lemma SameAnswers(s: Svc, s': Svc, id: nat)
    requires s'.answers == s.answers && Unanswered(s, id)
    ensures Unanswered(s', id)
  {
  }

  lemma ReturnInv(s: Svc, t: Task)
    requires SvcInv(s)
    ensures SvcInv(Return(s, t))
  {
    var f, s' := Info(s, t), Return(s, t);
    if f.call.Some? && f.woken {
      hide Rising, Genuine, Calls, CallWell, Apart, Answers, Batched, Ordered;
      ReturnedCalls(s, t);
      ReturnedLine(s, t);
      BatchedKept(s, s');
    }
  }

  lemma ReturnedLine(s: Svc, t: Task)
    requires Queued(s) && Ordered(s) && t in s.info && s.info[t].call.Some? && s.info[t].woken
    ensures Queued(Return(s, t)) && Ordered(Return(s, t))
  {
    hide Rising;
    var s' := Return(s, t);
    forall r | r in s'.queue ensures InLine(s', r) {
      assert InLine(s, r);
    }
  }

  lemma ReturnedCalls(s: Svc, t: Task)
    requires Calls(s) && Apart(s) && Answers(s) && t in s.info && s.info[t].call.Some? && s.info[t].woken
    ensures var s' := Return(s, t); Calls(s') && Apart(s') && Answers(s')
  {
    hide Genuine;
    var s', f := Return(s, t), s.info[t];
    assert CallWell(s, t) && Unanswered(s, f.call.value.id);
    forall u | u in s'.info ensures CallWell(s', u) {
      assert CallWell(s, u);
    }
    forall u | u in s'.info && s'.info[u].call.Some? ensures Unanswered(s', s'.info[u].call.value.id) {
      assert Unanswered(s, s.info[u].call.value.id);
    }
  }

  lemma ElsewhereInv(s: Svc, t: Task)
    requires SvcInv(s)
    ensures SvcInv(Elsewhere(s, t))
  {
    if Info(s, t).call.None? {
      hide Rising, Genuine, Calls, CallWell, Apart, Answers, Batched, Ordered;
      var s' := Elsewhere(s, t);
      ElsewhereLine(s, t);
      ElsewhereCalls(s, t);
      BatchedKept(s, s');
    }
  }

  lemma ElsewhereLine(s: Svc, t: Task)
    requires Queued(s) && Ordered(s) && Info(s, t).call.None?
    ensures Queued(Elsewhere(s, t)) && Ordered(Elsewhere(s, t))
  {
    hide Rising;
    var s' := Elsewhere(s, t);
    forall r | r in s'.queue ensures InLine(s', r) {
      assert InLine(s, r);
    }
  }

  lemma ElsewhereCalls(s: Svc, t: Task)
    requires Calls(s) && Apart(s) && Answers(s) && Info(s, t).call.None?
    ensures var s' := Elsewhere(s, t); Calls(s') && Apart(s') && Answers(s')
  {
    hide Genuine, Unanswered;
    var s' := Elsewhere(s, t);
    forall u | u in s'.info ensures CallWell(s', u) {
      assert u in s.info ==> CallWell(s, u);
    }
    forall u | u in s'.info && s'.info[u].call.Some? ensures Unanswered(s', s'.info[u].call.value.id) {
      SameAnswers(s, s', s.info[u].call.value.id);
    }
  }

  lemma RouseInv(s: Svc)
    requires SvcInv(s)
    ensures SvcInv(Rouse(s))
  {
    OwnerInv(s, Rouse(s));
  }

  /** Nothing but the owner's own state has changed. */
  lemma OwnerInv(s: Svc, s': Svc)
    requires SvcInv(s) && Attended(s') && s'.now >= s.now
    requires s' == s.(now := s'.now, owner := s'.owner, ownerBlocked := s'.ownerBlocked, limit := s'.limit, inreqing := s'.inreqing)
    requires s.owner.Handling? <==> s'.owner.Handling?
    ensures SvcInv(s')
  {
    hide Rising, Genuine, Unanswered;
    forall u | u in s'.info ensures CallWell(s', u) {
      assert CallWell(s, u);
    }
    forall u | u in s'.info && s'.info[u].call.Some? ensures Unanswered(s', s'.info[u].call.value.id) {
      SameAnswers(s, s', s.info[u].call.value.id);
    }
  }

  // ---------- batches ----------

  lemma {:induction false} MarkedInfo(m: map<Task, Fields>, batch: seq<Request>, t: Task)
    requires forall r :: r in batch ==> r.task in m
    ensures t in m ==> t in Marked(m, batch) && Marked(m, batch)[t] == (if exists r :: r in batch && r.task == t then m[t].(req := MARK) else m[t])
    decreases |batch|
  {
    if batch != [] {
      var u := batch[0].task;
      assert u in m;
      var m' := m[u := m[u].(req := MARK)];
      forall r | r in batch[1..] ensures r.task in m' {
        assert r in batch;
      }
      MarkedInfo(m', batch[1..], t);
      if exists r :: r in batch[1..] && r.task == t {
        var r :| r in batch[1..] && r.task == t;
        assert r in batch;
      }
      assert batch[0] in batch;
      assert forall r :: r in batch <==> r == batch[0] || r in batch[1..];
    }
  }

  lemma TakeInv(s: Svc)
    requires SvcInv(s) && !s.owner.Handling? && !s.inresping && !s.limit.Some?
    ensures SvcInv(Take(s))
  {
    hide Rising, Genuine, Calls, Apart, Answers, Marked;
    var s' := Take(s);
    TakenApart(s, s');
    TakenOrder(s, s');
    hide Ordered;
    TakenInfo(s, s');
    TakenCalls(s, s');
  }

  /** A batch is the front of the queue. */
  lemma TakenApart(s: Svc, s': Svc)
    requires Queued(s) && Ordered(s) && s' == Take(s)
    ensures s.queue == s'.batch + s'.queue
    ensures forall r :: r in s'.batch ==> r in s.queue && r.task in s.info
    ensures forall i, j :: 0 <= i < j < |s'.batch| ==> s'.batch[i].task != s'.batch[j].task
    ensures forall r :: r in s'.queue ==> forall b :: b in s'.batch ==> b.task != r.task
  {
    hide Marked, Queued, Ordered;
    var n, batch := Count(s), s'.batch;
    forall r | r in batch ensures r in s.queue && r.task in s.info {
      QueuedTask(s, r);
    }
    forall i, j | 0 <= i < j < |batch| ensures batch[i].task != batch[j].task {
      QueueApart(s, i, j);
    }
    forall i, j | 0 <= i < |batch| && 0 <= j < |s'.queue| ensures batch[i].task != s'.queue[j].task {
      QueueApart(s, i, n + j);
    }
  }

  lemma QueuedTask(s: Svc, r: Request)
    requires Queued(s) && r in s.queue
    ensures r.task in s.info
  {
  }

  lemma TakenOrder(s: Svc, s': Svc)
    requires Ordered(s) && s' == Take(s) && s.queue == s'.batch + s'.queue
    ensures Ordered(s')
  {
    hide Rising, Marked;
    assert s'.taken + s'.queue == s.taken + s.queue;
  }

  lemma TakenInfo(s: Svc, s': Svc)
    requires s' == Take(s) && forall r :: r in s'.batch ==> r.task in s.info
    ensures s'.info.Keys == s.info.Keys
    ensures forall t :: t in s.info ==> s'.info[t] == (if exists r :: r in s'.batch && r.task == t then s.info[t].(req := MARK) else s.info[t])
  {
    forall t | t in s.info ensures t in s'.info && s'.info[t] == (if exists r :: r in s'.batch && r.task == t then s.info[t].(req := MARK) else s.info[t]) {
      MarkedInfo(s.info, s'.batch, t);
    }
    MarkedKeys(s.info, s'.batch);
  }

  lemma {:induction false} MarkedKeys(m: map<Task, Fields>, batch: seq<Request>)
    requires forall r :: r in batch ==> r.task in m
    ensures Marked(m, batch).Keys == m.Keys
    decreases |batch|
  {
    if batch != [] {
      assert batch[0] in batch;
      var u := batch[0].task;
      var m' := m[u := m[u].(req := MARK)];
      forall r | r in batch[1..] ensures r.task in m' {
        assert r in batch;
      }
      MarkedKeys(m', batch[1..]);
      assert m'.Keys == m.Keys;
    }
  }

  lemma TakenCalls(s: Svc, s': Svc)
    requires Queued(s) && Calls(s) && Apart(s) && Answers(s) && !s.inresping && !s.owner.Handling? && s' == Take(s)
    requires s'.info.Keys == s.info.Keys
    requires forall t :: t in s.info ==> s'.info[t] == (if exists r :: r in s'.batch && r.task == t then s.info[t].(req := MARK) else s.info[t])
    requires s.queue == s'.batch + s'.queue
    requires forall r :: r in s'.queue ==> forall b :: b in s'.batch ==> b.task != r.task
    ensures Queued(s') && Calls(s') && Apart(s') && Answers(s')
    ensures forall r :: r in s'.batch ==> r.time <= s.now && r.task in s'.info && s'.info[r.task].call == Some(r)
  {
    hide Genuine, Unanswered, CallWell, Marked;
    assert forall r :: r in s.queue <==> r in s'.batch || r in s'.queue;
    forall r | r in s'.batch ensures InLine(s, r) {
      assert r in s.queue;
    }
    forall t | t in s'.info ensures CallWell(s', t) {
      TakenCall(s, s', t);
    }
    forall r | r in s'.batch ensures r.time <= s.now {
      assert InLine(s, r);
      CallTime(s, r.task);
    }
    forall r | r in s'.queue ensures InLine(s', r) {
      assert InLine(s, r);
    }
    forall u | u in s'.info && s'.info[u].call.Some? ensures Unanswered(s', s'.info[u].call.value.id) {
      SameAnswers(s, s', s.info[u].call.value.id);
    }
  }

  lemma CallTime(s: Svc, t: Task)
    requires t in s.info && CallWell(s, t) && s.info[t].call.Some?
    ensures s.info[t].call.value.time <= s.now
  {
  }

  lemma TakenCall(s: Svc, s': Svc, t: Task)
    requires t in s.info && CallWell(s, t) && !s.inresping && !s.owner.Handling? && s' == Take(s) && t in s'.info
    requires s'.info[t] == (if exists r :: r in s'.batch && r.task == t then s.info[t].(req := MARK) else s.info[t])
    requires forall r :: r in s.queue <==> r in s'.batch || r in s'.queue
    requires forall r :: r in s'.batch ==> InLine(s, r)
    ensures CallWell(s', t)
  {
    hide Genuine, Marked;
    if r :| r in s'.batch && r.task == t {
      assert InLine(s, r);
    }
  }

  lemma HandlerReturnsInv(s: Svc, outputs: seq<Value>)
    requires SvcInv(s)
    ensures SvcInv(HandlerReturns(s, outputs))
  {
    var s' := HandlerReturns(s, outputs);
    if s.owner.Handling? && |outputs| == |s.batch| {
      hide Rising, Genuine, Calls, Apart, Answers, CallWell;
      HandlerCalls(s, outputs);
    }
  }

  lemma HandlerCalls(s: Svc, outputs: seq<Value>)
    requires Calls(s) && Apart(s) && Answers(s) && s.owner.Handling? && |outputs| == |s.batch|
    ensures var s' := HandlerReturns(s, outputs); Calls(s') && Apart(s') && Answers(s')
  {
    hide Genuine, Unanswered;
    var s' := HandlerReturns(s, outputs);
    forall a | Genuine(s.served, a) ensures Genuine(s'.served, a) {
      GenuineKept(s.served, s'.served, a);
    }
    forall t | t in s'.info ensures CallWell(s', t) {
      assert CallWell(s, t);
    }
    forall u | u in s'.info && s'.info[u].call.Some? ensures Unanswered(s', s'.info[u].call.value.id) {
      SameAnswers(s, s', s.info[u].call.value.id);
    }
  }

  lemma GenuineKept(a: seq<Served>, b: seq<Served>, x: Answer)
    requires a <= b && Genuine(a, x)
    ensures Genuine(b, x)
  {
    var k, i :| 0 <= k < |a| && 0 <= i < |a[k].requests| && i < |a[k].outputs| && a[k].requests[i] == x.request && a[k].outputs[i] == x.value;
    assert b[k] == a[k];
  }

  lemma RoundInv(s: Svc)
    requires SvcInv(s)
    ensures SvcInv(Round(s))
  {
    if s.owner.Looping? && (s.nreq < s.max || s.inresping) {
      OwnerInv(s, Pause(s));
    } else if s.owner.Looping? || s.owner.Roused? {
      var go := if s.owner.Roused? then s.(limit := None) else s;
      if s.inresping || Count(s) == 0 {
        OwnerInv(s, go.(owner := Looping));
      } else {
        OwnerInv(s, go);
        TakeInv(go);
      }
    }
  }

  // ---------- handing out the answers ----------

  /** What is in the open batch is not in the queue. */
  lemma NotQueued(s: Svc, r: Request)
    requires Ordered(s) && r in s.batch
    ensures r !in s.queue
  {
    var q, n := s.taken + s.queue, |s.taken|;
    var i :| 0 <= i < |s.batch| && s.batch[i] == r;
    assert q[n - |s.batch| + i] == r;
    forall j | 0 <= j < |s.queue| ensures s.queue[j] != r {
      assert q[n + j] == s.queue[j];
    }
  }

  /** A task that still waits for an answer of the batch is in the very request of its slot. */
  lemma DueRequest(s: Svc, i: nat)
    requires Calls(s) && Batched(s) && s.inresping && i < |s.batch| && Due(s, s.batch[i].task)
    ensures s.batch[i].task in s.info && s.info[s.batch[i].task].call == Some(s.batch[i]) && !s.info[s.batch[i].task].woken
  {
    hide Genuine;
    var t := s.batch[i].task;
    assert s.batch[i] in s.batch;
    assert CallWell(s, t) && Later(s, s.batch[i]);
  }

  ghost function Woken(s: Svc, i: nat): Svc
    requires i < |s.batch| && i < |s.outputs|
  {
    var t := s.batch[i].task;
    if Due(s, t) then s.(info := s.info[t := Info(s, t).(blocked := false, resp := s.outputs[i], woken := true)]) else s
  }

  lemma WokenInv(s: Svc, i: nat)
    requires SvcInv(s) && s.inresping && i < |s.batch|
    ensures SvcInv(Woken(s, i))
  {
    if Due(s, s.batch[i].task) {
      hide Rising, Genuine, Calls, Apart, Answers, CallWell;
      DueRequest(s, i);
      NotQueued(s, s.batch[i]);
      WokenCalls(s, i);
    }
  }

  lemma WokenCalls(s: Svc, i: nat)
    requires Calls(s) && Apart(s) && Answers(s) && Batched(s) && s.inresping && i < |s.batch| && Due(s, s.batch[i].task)
    requires s.batch[i].task in s.info && s.info[s.batch[i].task].call == Some(s.batch[i])
    ensures Calls(Woken(s, i)) && Apart(Woken(s, i)) && Answers(Woken(s, i))
  {
    hide Unanswered;
    var s' := Woken(s, i);
    assert s.served[|s.served| - 1].requests[i] == s.batch[i] && s.served[|s.served| - 1].outputs[i] == s.outputs[i];
    assert Genuine(s.served, Answer(s.batch[i], s.outputs[i]));
    hide Genuine;
    forall t | t in s'.info ensures CallWell(s', t) {
      assert CallWell(s, t);
    }
    forall u | u in s'.info && s'.info[u].call.Some? ensures Unanswered(s', s'.info[u].call.value.id) {
      SameAnswers(s, s', s.info[u].call.value.id);
    }
  }

  /** The answers are handed out one after the other; in the end nobody of the batch still waits. */
  lemma {:induction false} DeliveredInv(s: Svc, i: nat)
    requires SvcInv(s) && s.inresping && i <= |s.batch|
    requires forall j :: 0 <= j < i ==> !Due(s, s.batch[j].task)
    ensures SvcInv(Delivered(s, i))
    ensures var s' := Delivered(s, i); s' == s.(info := s'.info) && forall j :: 0 <= j < |s.batch| ==> !Due(s', s.batch[j].task)
    decreases |s.batch| - i
  {
    if i < |s.batch| {
      hide SvcInv, Due, Info, Woken;
      OutputsFit(s);
      WokenInv(s, i);
      var s1 := Woken(s, i);
      WokenDue(s, i);
      DeliveredInv(s1, i + 1);
      DeliveredStep(s, i);
    }
  }

  lemma WokenDue(s: Svc, i: nat)
    requires i < |s.batch| && i < |s.outputs| && forall j :: 0 <= j < i ==> !Due(s, s.batch[j].task)
    ensures var s1 := Woken(s, i); s1 == s.(info := s1.info) && forall j :: 0 <= j < i + 1 ==> !Due(s1, s.batch[j].task)
  {
  }

  lemma DeliveredStep(s: Svc, i: nat)
    requires i < |s.batch| && i < |s.outputs|
    ensures Delivered(s, i) == Delivered(Woken(s, i), i + 1)
  {
  }

  lemma OutputsFit(s: Svc)
    requires SvcInv(s) && s.inresping
    ensures |s.outputs| == |s.batch|
  {
  }

  lemma RespondInv(s: Svc)
    requires SvcInv(s)
    ensures SvcInv(Respond(s))
  {
    if s.inresping {
      var s2 := s.(inreqing := s.inreqing || (s.limit.Some? && s.nreq >= s.limit.value));
      OwnerInv(s, s2);
      DeliveredInv(s2, 0);
      hide SvcInv, Delivered;
      CloseBatch(s2, Delivered(s2, 0));
    }
  }

  lemma ScheduleInv(s: Svc)
    requires SvcInv(s)
    ensures SvcInv(Schedule(s))
  {
    OwnerInv(s, WakeOwner(s));
    RespondInv(WakeOwner(s));
  }

  /** With all its answers handed out, the batch is over. */
  lemma CloseBatch(s: Svc, d: Svc)
    requires SvcInv(d) && d.inresping && d == s.(info := d.info) && forall j :: 0 <= j < |d.batch| ==> !Due(d, d.batch[j].task)
    requires s.limit.Some? && s.nreq >= s.limit.value ==> s.inreqing
    ensures SvcInv(d.(inresping := false))
  {
    var s' := d.(inresping := false);
    hide Genuine, Unanswered, Rising;
    forall t | t in s'.info ensures CallWell(s', t) {
      assert CallWell(d, t);
      if d.info[t].call.Some? && d.info[t].call.value in d.batch {
        var j :| 0 <= j < |d.batch| && d.batch[j] == d.info[t].call.value;
        assert !Due(d, d.batch[j].task);
      }
    }
    forall u | u in s'.info && s'.info[u].call.Some? ensures Unanswered(s', s'.info[u].call.value.id) {
      SameAnswers(d, s', d.info[u].call.value.id);
    }
  }

  // ---------- every step, every run ----------

  lemma StepInv(s: Svc, a: Step)
    requires SvcInv(s) && Fair(s, a)
    ensures SvcInv(Apply(s, a))
  {
    hide SvcInv, Fair;
    match a
    case DoAsk(t, req) => AskInv(s, t, req);
    case DoExpire(t) => ExpireInv(s, t);
    case DoReturn(t) => ReturnInv(s, t);
    case DoElsewhere(t) => ElsewhereInv(s, t);
    case DoRouse => RouseInv(s);
    case DoRound => RoundInv(s);
    case DoHandlerReturns(outputs) => HandlerReturnsInv(s, outputs);
    case DoSchedule => ScheduleInv(s);
    case DoTick(now) => TickInv(s, now);
  }

  lemma TickInv(s: Svc, now: real)
    requires SvcInv(s)
    ensures SvcInv(Tick(s, now))
  {
    OwnerInv(s, Tick(s, now));
  }

  lemma CreatedInv(max: nat, now: real)
    ensures SvcInv(Created(max, now))
  {
  }

  lemma {:induction false} RunInv(s: Svc, steps: seq<Step>)
    requires SvcInv(s) && FairRun(s, steps)
    ensures SvcInv(Run(s, steps))
    decreases |steps|
  {
    hide SvcInv, Fair, Apply;
    if |steps| != 0 {
      StepInv(s, steps[0]);
      RunInv(Apply(s, steps[0]), steps[1..]);
    }
  }
}
