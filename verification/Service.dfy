/** The multi-service of service.lua: a linked queue of requests and the arrays of a batch. */
module Services {
  import opened RbShape
  import opened Tasks
  import opened TaskQueues
  import opened ServiceModel
  import opened ServiceInvariant
  import opened ServiceTheorems

  ghost function TasksOf(q: seq<Request>): seq<Task> { seq(|q|, i requires 0 <= i < |q| => q[i].task) }

  class MultiService {
    const max: nat
    var now: real              // tasklet.now
    var taskq: Head
    var nreq: int
    var nwait: Option<nat>     // None for 0x7fffffff
    var inreqing: bool
    var inresping: bool
    var owner: Owner
    var ownerBlocked: bool
    const reqarr: array<Value>
    const resparr: array<Value>
    const taskarr: array<Task?>
    var nhandle: nat
    var tmhandle: real
    var tasks: set<Task>       // the tasks that have made requests
    ghost var st: Svc

    /** The fields of every task are what the table says. */
    ghost predicate FieldsAre(m: map<Task, Fields>)
      reads `tasks, tasks`svcReq, tasks`svcReqTime, tasks`svcResp, tasks`blockedBy
    {
      m.Keys == tasks &&
      forall t :: t in tasks ==>
        && m[t].blocked == (t.blockedBy == this) && m[t].req == t.svcReq && m[t].time == t.svcReqTime && m[t].resp == t.svcResp
    }

    ghost predicate QueueIs(q: seq<Request>)
      reads `taskq, `tasks, tasks`svcPrev, tasks`svcNext
    {
      Linked(tasks, taskq, TasksOf(q))
    }

    ghost predicate BatchIs(batch: seq<Request>)
      reads `nhandle, taskarr
    {
      nhandle == |batch| <= taskarr.Length && forall i :: 0 <= i < nhandle ==> taskarr[i] == batch[i].task
    }

    /** What the handler finds in the request slots. */
    ghost predicate InputsAre(handling: bool, batch: seq<Request>)
      reads reqarr
    {
      handling ==> |batch| <= reqarr.Length && forall i :: 0 <= i < |batch| ==> reqarr[i] == batch[i].req
    }

    /** What waits in the response slots. */
    ghost predicate OutputsAre(responding: bool, outputs: seq<Value>)
      reads resparr
    {
      responding ==> |outputs| <= resparr.Length && forall i :: 0 <= i < |outputs| ==> resparr[i] == outputs[i]
    }

    /** The plain fields. */
    ghost predicate Counts(s: Svc)
      reads `now, `nreq, `nwait, `inreqing, `inresping, `owner, `ownerBlocked, `tmhandle
    {
      && max == s.max && now == s.now && nreq == s.nreq && nwait == s.limit && inreqing == s.inreqing && inresping == s.inresping
      && owner == s.owner && ownerBlocked == s.ownerBlocked && tmhandle == s.started
    }

    ghost predicate Arrays()
    {
      reqarr.Length == max && resparr.Length == max && taskarr.Length == max && reqarr != resparr
    }

    /** The arrays, while the batch is with the handler or its answers wait. */
    ghost predicate ArraysAre(handling: bool, responding: bool, batch: seq<Request>, outputs: seq<Value>)
      reads `nhandle, reqarr, resparr, taskarr
    {
      Arrays() && BatchIs(batch) && InputsAre(handling, batch) && OutputsAre(responding, outputs)
    }

    ghost predicate Valid()
      reads this, reqarr, resparr, taskarr, tasks
    {
      && SvcInv(st) && Counts(st) && FieldsAre(st.info) && QueueIs(st.queue)
      && ArraysAre(st.owner.Handling?, st.inresping, st.batch, st.outputs)
    }

    /** create_multi_service, the owner not started yet. */
    constructor (max: nat, now: real)
      ensures Valid() && st == Created(max, now) && fresh(reqarr) && fresh(resparr) && fresh(taskarr)
    {
      this.max, this.now := max, now;
      taskq, nreq, nwait, inreqing, inresping := NoTask, 0, None, false, false;
      owner, ownerBlocked, nhandle, tmhandle, tasks := Looping, false, 0, now, {};
      reqarr := new Value[max](i => Nothing);
      resparr := new Value[max](i => Nothing);
      taskarr := new Task?[max](i => null);
      st := Created(max, now);
      new;
      CreatedInv(max, now);
    }

    // ---------- requests ----------

    /** multi_service_request up to where it blocks. */
    method Submit(task: Task, req: Value)
      requires Valid() && Fair(st, DoAsk(task, req)) && Info(st, task).call.None?
      requires task !in tasks ==> task.svcResp == Nothing
      modifies this, tasks`svcPrev, tasks`svcNext, task
      ensures Valid() && st == Ask(old(st), task, req) && tasks == old(tasks) + {task}
    {
      hide SvcInv, FieldsAre, QueueIs, ArraysAre, Fair;
      ghost var s := st;
      AskInv(s, task, req);
      LineApart(s);
      NoRequestOf(s, task);
      Place(task, req, s.queue, s.info, Request(s.calls, task, req, s.now));
      OneMore();
      st := Ask(s, task, req);
    }

    /** The owner is to be woken once enough requests are there. */
    method OneMore()
      modifies `nreq, `inreqing
      ensures nreq == old(nreq) + 1
      ensures inreqing == (old(inreqing) || (nwait.Some? && nreq >= nwait.value && ownerBlocked))
    {
      nreq := nreq + 1;
      if !inreqing && nwait.Some? && nreq >= nwait.value && ownerBlocked {
        inreqing := true;
      }
    }

    method Place(task: Task, req: Value, ghost q: seq<Request>, ghost m: map<Task, Fields>, ghost r: Request)
      requires FieldsAre(m) && (task !in tasks ==> task.svcResp == Nothing) && QueueIs(q) && q == st.queue
      requires task !in TasksOf(q) && NoDup(TasksOf(q)) && r == Request(st.calls, task, req, now)
      modifies `tasks, `taskq, tasks`svcPrev, tasks`svcNext, task
      ensures tasks == old(tasks) + {task} && QueueIs(q + [r])
      ensures FieldsAre(m[task := (if task in m then m[task] else Blank()).(blocked := true, req := req, time := Some(now), call := Some(r), woken := false)])
    {
      hide FieldsAre, QueueIs, NoDup;
      Enroll(task, req, m);
      Append(task, q, r);
    }

    /** The task notes down its request. */
    method Enroll(task: Task, req: Value, ghost m: map<Task, Fields>)
      requires FieldsAre(m) && (task !in tasks ==> task.svcResp == Nothing) && QueueIs(st.queue)
      modifies `tasks, task`svcReq, task`svcReqTime, task`blockedBy
      ensures tasks == old(tasks) + {task} && QueueIs(st.queue)
      ensures FieldsAre(m[task := (if task in m then m[task] else Blank()).(blocked := true, req := req, time := Some(now),
        call := Some(Request(st.calls, task, req, now)), woken := false)])
    {
      hide TasksOf, Linked;
      task.svcReq := req;
      task.svcReqTime := Some(now);
      task.blockedBy := this;
      Widen(task, TasksOf(st.queue));
    }

    method Widen(task: Task, ghost q: seq<Task>)
      requires Linked(tasks, taskq, q)
      modifies `tasks
      ensures tasks == old(tasks) + {task} && Linked(tasks, taskq, q)
    {
      tasks := tasks + {task};
    }

    method Append(task: Task, ghost q: seq<Request>, ghost r: Request)
      requires QueueIs(q) && task in tasks && task !in TasksOf(q) && NoDup(TasksOf(q)) && r.task == task
      modifies `taskq, tasks`svcPrev, tasks`svcNext
      ensures QueueIs(q + [r])
    {
      hide NoDup;
      taskq := PushTask(taskq, task, tasks, TasksOf(q));
      assert TasksOf(q + [r]) == TasksOf(q) + [task];
    }

    lemma LineApart(s: Svc)
      requires SvcInv(s)
      ensures NoDup(TasksOf(s.queue))
    {
      hide Calls, Batched, Answers, Apart, Rising;
      var q := TasksOf(s.queue);
      forall i, j | 0 <= i < j < |q| ensures q[i] != q[j] {
        QueueApart(s, i, j);
      }
    }

    lemma NoRequestOf(s: Svc, t: Task)
      requires SvcInv(s) && Info(s, t).call.None?
      ensures t !in TasksOf(s.queue)
    {
      hide Calls, Ordered, Batched, Answers, Apart;
      forall i | 0 <= i < |s.queue| ensures s.queue[i].task != t {
        assert s.queue[i] in s.queue;
        assert InLine(s, s.queue[i]);
      }
    }

    /** A request whose wait is over without an answer: it leaves the queue, unless it has already left it. */
    method GiveUp(task: Task)
      requires Valid() && task in tasks && Info(st, task).call.Some? && !Info(st, task).woken
      modifies `taskq, `nreq, `st, tasks`svcPrev, tasks`svcNext, task`svcReqTime
      ensures Valid() && st == Expire(old(st), task)
    {
      hide SvcInv, FieldsAre, QueueIs, ArraysAre, Expire, NoDup, Unlinked, TasksOf, Dropped;
      ghost var s := st;
      ExpireInv(s, task);
      Keys(s);
      GivenUp(s, task);
      Withdraw(task, s.queue, Expire(s, task).queue, s.info);
      st := Expire(s, task);
    }

    method Withdraw(task: Task, ghost q: seq<Request>, ghost rest: seq<Request>, ghost m: map<Task, Fields>)
      requires QueueIs(q) && NoDup(TasksOf(q)) && FieldsAre(m) && task in tasks && m.Keys == tasks
      requires if task.svcReq != MARK then task in TasksOf(q) && rest == Dropped(q, task) && Unlinked(TasksOf(q), task) == TasksOf(rest) else rest == q
      modifies `taskq, `nreq, tasks`svcPrev, tasks`svcNext, task`svcReqTime
      ensures QueueIs(rest) && FieldsAre(m[task := m[task].(time := None, call := None)])
      ensures nreq == old(nreq) - (if old(task.svcReq) != MARK then 1 else 0)
    {
      hide FieldsAre, QueueIs, NoDup, Dropped;
      if task.svcReq != MARK {
        Leave(task, q);
        nreq := nreq - 1;
      }
      Forget(task, m);
    }

    lemma Keys(s: Svc)
      requires FieldsAre(s.info)
      ensures s.info.Keys == tasks
      ensures forall t :: t in tasks ==> s.info[t].req == t.svcReq && s.info[t].time == t.svcReqTime && s.info[t].resp == t.svcResp
      ensures forall t :: t in tasks ==> (s.info[t].blocked <==> t.blockedBy == this)
    {
    }

    lemma GivenUp(s: Svc, t: Task)
      requires SvcInv(s) && t in s.info && s.info[t].call.Some? && !s.info[t].woken
      ensures var s' := Expire(s, t);
        && s' == s.(info := s.info[t := s.info[t].(time := None, call := None)], queue := s'.queue, nreq := s'.nreq)
        && (if s.info[t].req != MARK then s'.queue == Dropped(s.queue, t) && s'.nreq == s.nreq - 1 else s'.queue == s.queue && s'.nreq == s.nreq)
      ensures NoDup(TasksOf(s.queue))
      ensures s.info[t].req != MARK ==> t in TasksOf(s.queue) && Unlinked(TasksOf(s.queue), t) == TasksOf(Dropped(s.queue, t))
    {
      LineApart(s);
      WaitsIn(s, t);
      if s.info[t].req != MARK {
        var k :| 0 <= k < |s.queue| && s.queue[k] == s.info[t].call.value;
        assert TasksOf(s.queue)[k] == t;
        DroppedTasks(s.queue, t);
      }
    }

    lemma WaitsIn(s: Svc, t: Task)
      requires SvcInv(s) && t in s.info && s.info[t].call.Some? && !s.info[t].woken
      ensures s.info[t].req != MARK ==> s.info[t].call.value in s.queue && s.info[t].call.value.task == t
    {
      hide Queued, Ordered, Batched, Answers, Apart, Genuine;
      assert CallWell(s, t);
    }

    lemma {:induction false} DroppedTasks(q: seq<Request>, t: Task)
      ensures Unlinked(TasksOf(q), t) == TasksOf(Dropped(q, t))
    {
      if q != [] {
        assert TasksOf(q)[0] == q[0].task && TasksOf(q)[1..] == TasksOf(q[1..]);
        DroppedTasks(q[1..], t);
        assert q[0].task != t ==> TasksOf([q[0]] + Dropped(q[1..], t)) == [q[0].task] + TasksOf(Dropped(q[1..], t));
      }
    }

    method Leave(task: Task, ghost q: seq<Request>)
      requires QueueIs(q) && NoDup(TasksOf(q)) && task in TasksOf(q) && Unlinked(TasksOf(q), task) == TasksOf(Dropped(q, task))
      modifies `taskq, tasks`svcPrev, tasks`svcNext
      ensures QueueIs(Dropped(q, task))
    {
      hide NoDup, Linked;
      taskq := UnlinkTask(taskq, task, tasks, TasksOf(q));
    }

    method Forget(task: Task, ghost m: map<Task, Fields>)
      requires FieldsAre(m) && task in m
      modifies task`svcReqTime
      ensures FieldsAre(m[task := m[task].(time := None, call := None)])
    {
      task.svcReqTime := None;
    }

    /** A request returns the answer it was woken with. */
    method Answered(task: Task) returns (resp: Value)
      requires Valid() && task in tasks && Info(st, task).call.Some? && Info(st, task).woken
      modifies `st
      ensures Valid() && st == Return(old(st), task)
      ensures |st.answers| == |old(st).answers| + 1 && st.answers[|old(st).answers|].value == resp
    {
      hide SvcInv, QueueIs, ArraysAre;
      ReturnInv(st, task);
      resp := task.svcResp;
      st := Return(st, task);
    }

    // ---------- rounds of the owner ----------

    /** multi_serve, from its start to where it blocks or comes to the handler. */
    method Serve()
      requires Valid() && owner.Looping?
      modifies this, tasks`svcPrev, tasks`svcReq, reqarr, resparr, taskarr
      ensures Valid() && st == Round(old(st))
    {
      hide SvcInv, FieldsAre, QueueIs, ArraysAre, Take;
      ghost var s := st;
      RoundInv(s);
      if nreq < max || inresping {
        owner, ownerBlocked, nwait := Waiting, true, Some(max);
        st := Round(s);
        return;
      }
      NoLimit(s);
      Handle();
    }

    lemma NoLimit(s: Svc)
      requires SvcInv(s) && s.owner.Looping?
      ensures s.limit.None?
    {
      hide Queued, Calls, Ordered, Batched, Answers, Apart;
    }

    /** multi_serve, from the end of its wait on. */
    method GoOn()
      requires Valid() && owner.Roused?
      modifies this, tasks`svcPrev, tasks`svcReq, reqarr, resparr, taskarr
      ensures Valid() && st == Round(old(st))
    {
      hide SvcInv, FieldsAre, QueueIs, ArraysAre, Take;
      ghost var s := st;
      WaitOver(s);
      nwait := None;
      st := s.(limit := None);
      Handle();
    }

    lemma WaitOver(s: Svc)
      requires SvcInv(s) && s.owner.Roused?
      ensures SvcInv(s.(limit := None))
    {
      OwnerInv(s, s.(limit := None));
    }

    /** The second half of multi_serve, up to the call of the handler. */
    method Handle()
      requires Valid() && (owner.Looping? || owner.Roused?) && st.limit.None?
      modifies this, tasks`svcPrev, tasks`svcReq, reqarr, resparr, taskarr
      ensures Valid() && st == if old(st).inresping || Count(old(st)) == 0 then old(st).(owner := Looping) else Take(old(st))
      ensures st.owner.Handling? ==> |st.batch| <= reqarr.Length && forall i :: 0 <= i < |st.batch| ==> reqarr[i] == st.batch[i].req
    {
      hide SvcInv, FieldsAre, QueueIs, ArraysAre, Take;
      ghost var s := st;
      RoundOver(s);
      var n := nreq;
      if n > max {
        n := max;
      }
      if inresping || n <= 0 {
        owner := Looping;
        st := s.(owner := Looping);
        assert !st.owner.Handling?;
        return;
      }
      TakeBatch(n);
      if st.owner.Handling? {
        HandlerFinds();
      }
    }

    /** What the handler is given. */
    lemma HandlerFinds()
      requires Valid() && st.owner.Handling?
      ensures |st.batch| <= reqarr.Length && forall i :: 0 <= i < |st.batch| ==> reqarr[i] == st.batch[i].req
    {
      hide SvcInv, FieldsAre, QueueIs;
    }

    lemma RoundOver(s: Svc)
      requires SvcInv(s) && (s.owner.Looping? || s.owner.Roused?) && s.limit.None?
      ensures SvcInv(s.(owner := Looping)) && s.nreq == |s.queue|
    {
      OwnerInv(s, s.(owner := Looping));
    }

    /** The first `n` requests are copied into the arrays, marked, and cut off the queue. */
    method TakeBatch(n: nat)
      requires Valid() && (owner.Looping? || owner.Roused?) && !inresping && st.limit.None?
      requires n > 0 && n == Count(st)
      modifies this, tasks`svcPrev, tasks`svcReq, reqarr, resparr, taskarr
      ensures Valid() && st == Take(old(st))
    {
      hide SvcInv, FieldsAre, QueueIs, ArraysAre, Arrays, Marked, NoDup, Queued;
      ghost var s := st;
      HasArrays(s);
      TakeInv(s);
      LineApart(s);
      LineWell(s);
      CopyAndCut(n);
      ToHandler(n);
      st := Take(s);
    }

    method ToHandler(n: nat)
      modifies `nreq, `tmhandle, `owner
      ensures nreq == old(nreq) - n && tmhandle == now && owner == Handling
    {
      nreq := nreq - n;
      tmhandle := now;
      owner := Handling;
    }

    method CopyAndCut(n: nat)
      requires QueueIs(st.queue) && FieldsAre(st.info) && Queued(st) && NoDup(TasksOf(st.queue)) && Arrays() && 0 < n <= |st.queue| && n <= max
      modifies `taskq, `nhandle, tasks`svcPrev, tasks`svcReq, reqarr, resparr, taskarr
      ensures QueueIs(st.queue[n..]) && FieldsAre(Marked(st.info, st.queue[..n])) && ArraysAre(true, false, st.queue[..n], st.outputs)
    {
      hide FieldsAre, QueueIs, Linked, Marked, NoDup, Queued;
      var task := CopyBatch(n);
      CutQueue(task, st.queue, n);
      nhandle := n;
    }

    lemma HasArrays(s: Svc)
      requires ArraysAre(s.owner.Handling?, s.inresping, s.batch, s.outputs)
      ensures Arrays()
    {
    }

    lemma LineWell(s: Svc)
      requires SvcInv(s)
      ensures Queued(s)
    {
    }

    /** The loop over the batch; returns the task behind it. */
    method CopyBatch(n: nat) returns (task: Task?)
      requires QueueIs(st.queue) && FieldsAre(st.info) && Queued(st) && NoDup(TasksOf(st.queue)) && Arrays() && 0 < n <= |st.queue| && n <= max
      modifies tasks`svcReq, reqarr, resparr, taskarr
      ensures QueueIs(st.queue) && FieldsAre(Marked(st.info, st.queue[..n]))
      ensures task == if n < |st.queue| then st.queue[n].task else null
      ensures forall i :: 0 <= i < n ==> taskarr[i] == st.queue[i].task && reqarr[i] == st.queue[i].req
    {
      hide FieldsAre, QueueIs, Linked, Marked, NoDup, Queued;
      ghost var batch, m := st.queue[..n], st.info;
      NextInLine(st.queue, 0);
      InLineAll(st, n);
      task := taskq.task;
      assert batch[0..] == batch;
      for i := 0 to n
        invariant QueueIs(st.queue) && FieldsAre(m) && m.Keys == st.info.Keys && Marked(m, batch[i..]) == Marked(st.info, batch)
        invariant task == if i < |st.queue| then st.queue[i].task else null
        invariant forall j :: 0 <= j < i ==> taskarr[j] == batch[j].task && reqarr[j] == batch[j].req
        invariant forall j :: i <= j < n ==> batch[j].task in m && m[batch[j].task].req == batch[j].req
      {
        NextInLine(st.queue, i);
        MarkedStep(m, batch, i);
        LineDistinct(st.queue, i);
        CopyOne(i, task, m);
        m := m[task := m[task].(req := MARK)];
        task := task.svcNext;
      }
      MarkedAll(m, batch[n..]);
    }

    method CopyOne(i: nat, task: Task, ghost m: map<Task, Fields>)
      requires Arrays() && i < max && FieldsAre(m) && task in m
      modifies task`svcReq, reqarr, resparr, taskarr
      ensures FieldsAre(m[task := m[task].(req := MARK)])
      ensures taskarr[i] == task && reqarr[i] == m[task].req
      ensures forall j :: 0 <= j < max && j != i ==> taskarr[j] == old(taskarr[j]) && reqarr[j] == old(reqarr[j])
    {
      reqarr[i] := task.svcReq;
      resparr[i] := Nothing;
      task.svcReq := MARK;
      taskarr[i] := task;
    }

    lemma NextInLine(q: seq<Request>, i: nat)
      requires QueueIs(q) && i < |q|
      ensures q[i].task in tasks && q[i].task.svcNext == (if i + 1 < |q| then q[i + 1].task else null)
      ensures taskq.First? && taskq.task == q[0].task
    {
      NextOf(tasks, taskq, TasksOf(q), i);
    }

    lemma InLineAll(s: Svc, n: nat)
      requires Queued(s) && n <= |s.queue|
      ensures forall j :: 0 <= j < n ==> s.queue[j].task in s.info && s.info[s.queue[j].task].req == s.queue[j].req
    {
      forall j | 0 <= j < n ensures s.queue[j].task in s.info && s.info[s.queue[j].task].req == s.queue[j].req {
        assert s.queue[j] in s.queue;
        assert InLine(s, s.queue[j]);
      }
    }

    lemma LineDistinct(q: seq<Request>, i: nat)
      requires NoDup(TasksOf(q)) && i < |q|
      ensures forall j :: i < j < |q| ==> q[j].task != q[i].task
    {
      forall j | i < j < |q| ensures q[j].task != q[i].task {
        assert TasksOf(q)[i] != TasksOf(q)[j];
      }
    }

    lemma MarkedStep(m: map<Task, Fields>, batch: seq<Request>, i: nat)
      requires i < |batch| && batch[i].task in m
      ensures Marked(m, batch[i..]) == Marked(m[batch[i].task := m[batch[i].task].(req := MARK)], batch[i + 1..])
    {
      assert batch[i..][0] == batch[i] && batch[i..][1..] == batch[i + 1..];
    }

    lemma MarkedAll(m: map<Task, Fields>, batch: seq<Request>)
      requires batch == []
      ensures Marked(m, batch) == m
    {
    }

    method CutQueue(task: Task?, ghost q: seq<Request>, ghost n: nat)
      requires QueueIs(q) && NoDup(TasksOf(q)) && 0 < n <= |q| && task == if n < |q| then q[n].task else null
      modifies `taskq, tasks`svcPrev
      ensures QueueIs(q[n..])
    {
      hide NoDup, Linked;
      assert TasksOf(q)[n..] == TasksOf(q[n..]);
      taskq := CutFront(taskq, task, tasks, TasksOf(q), n);
    }

    // ---------- answers ----------

    /** The handler returns; what it wrote into the slots is `slots`. */
    method HandlerReturned(slots: seq<Value>)
      requires Valid() && owner.Handling? && |slots| == nhandle
      modifies `owner, `inresping, `st, resparr
      ensures Valid() && st == HandlerReturns(old(st), slots)
    {
      hide SvcInv, FieldsAre, QueueIs;
      HandlerReturnsInv(st, slots);
      forall i | 0 <= i < |slots| {
        resparr[i] := slots[i];
      }
      owner, inresping := Looping, true;
      st := HandlerReturns(st, slots);
    }

    /** service_schedule. */
    method Pass()
      requires Valid()
      modifies this, tasks`svcResp, tasks`blockedBy
      ensures Valid() && st == Schedule(old(st))
    {
      hide Valid, WakeOwner, Delivered;
      WakeTheOwner();
      HandOutAll();
    }

    /** The loop over svc_reqing. */
    method WakeTheOwner()
      requires Valid()
      modifies this
      ensures Valid() && st == WakeOwner(old(st)) && tasks == old(tasks)
    {
      hide SvcInv, FieldsAre, QueueIs, ArraysAre;
      OwnerMayWake(st);
      if inreqing && ownerBlocked {
        inreqing, ownerBlocked := false, false;
        if owner.Waiting? {
          owner := Roused;
        }
      }
      st := WakeOwner(st);
    }

    lemma OwnerMayWake(s: Svc)
      requires SvcInv(s)
      ensures SvcInv(WakeOwner(s))
    {
      OwnerInv(s, WakeOwner(s));
    }

    /** The loop over svc_resping. */
    method HandOutAll()
      requires Valid()
      modifies this, tasks`svcResp, tasks`blockedBy
      ensures Valid() && st == Respond(old(st))
    {
      hide SvcInv, FieldsAre, QueueIs, ArraysAre, Delivered;
      ghost var s := st;
      RespondInv(s);
      BatchReady(s);
      Keys(s);
      if inresping {
        if !inreqing && nwait.Some? && nreq >= nwait.value {
          inreqing := true;
        }
        ghost var d := s.(inreqing := inreqing);
        HandOut(d);
        HandedOut(d);
        NoOutputs(s);
        inresping := false;
      }
      st := Respond(s);
    }

    lemma NoOutputs(s: Svc)
      requires ArraysAre(s.owner.Handling?, s.inresping, s.batch, s.outputs)
      ensures ArraysAre(s.owner.Handling?, false, s.batch, s.outputs)
    {
    }

    lemma BatchReady(s: Svc)
      requires SvcInv(s)
      ensures s.inresping ==> |s.outputs| == |s.batch| && forall i :: 0 <= i < |s.batch| ==> s.batch[i].task in s.info
    {
      hide Queued, Calls, Ordered, Answers, Apart;
      if s.inresping {
        forall i | 0 <= i < |s.batch| ensures s.batch[i].task in s.info {
          assert s.batch[i] in s.batch;
        }
      }
    }

    /** The loop that hands out the answers of a batch. */
    method HandOut(ghost s: Svc)
      requires FieldsAre(s.info) && ArraysAre(s.owner.Handling?, true, s.batch, s.outputs) && |s.outputs| == |s.batch| && tmhandle == s.started
      requires forall i :: 0 <= i < |s.batch| ==> s.batch[i].task in tasks
      modifies tasks`svcResp, tasks`blockedBy
      ensures FieldsAre(Delivered(s, 0).info)
    {
      hide FieldsAre, Delivered, Due;
      ghost var d := s;
      for i := 0 to nhandle
        invariant FieldsAre(d.info) && Delivered(d, i) == Delivered(s, 0) && d == s.(info := d.info)
        invariant forall j :: 0 <= j < |s.batch| ==> s.batch[j].task in tasks
      {
        HandOne(d, i);
        DeliveredStep(d, i);
        d := Woken(d, i);
      }
      DeliveredAll(d, nhandle);
    }

    lemma HandedOut(s: Svc)
      ensures Delivered(s, 0) == s.(info := Delivered(s, 0).info)
    {
      DeliveredMax(s, 0);
    }

    lemma DeliveredAll(s: Svc, i: nat)
      requires i >= |s.batch|
      ensures Delivered(s, i) == s
    {
    }

    method HandOne(ghost s: Svc, i: nat)
      requires FieldsAre(s.info) && ArraysAre(s.owner.Handling?, true, s.batch, s.outputs) && |s.outputs| == |s.batch| && tmhandle == s.started
      requires i < nhandle && s.batch[i].task in tasks
      modifies tasks`svcResp, tasks`blockedBy
      ensures FieldsAre(Woken(s, i).info)
    {
      var task: Task := taskarr[i];
      if task.blockedBy == this {
        var reqtime := task.svcReqTime;
        if reqtime.Some? && reqtime.value <= tmhandle {
          task.svcResp := resparr[i];
          task.blockedBy := null;
        }
      }
    }
  }
}
