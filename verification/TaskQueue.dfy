/** Queues linked through the waiting tasks, as channels and services keep them. */
module TaskQueues {
  import opened RbShape
  import opened Tasks

  /** The head of a queue: false, -1 for that of a closed channel, or a task. */
  datatype Head = NoTask | Shut | First(task: Task)

  /** A queue without `t`. */
  ghost function Unlinked(q: seq<Task>, t: Task): seq<Task> {
    if q == [] then [] else if q[0] == t then q[1..] else [q[0]] + Unlinked(q[1..], t)
  }

  lemma {:induction false} UnlinkedAt(q: seq<Task>, k: nat)
    requires NoDup(q) && k < |q|
    ensures Unlinked(q, q[k]) == q[..k] + q[k + 1..]
  {
    if k > 0 {
      assert q[0] != q[k];
      forall i, j | 0 <= i < j < |q[1..]| ensures q[1..][i] != q[1..][j] {
      }
      UnlinkedAt(q[1..], k - 1);
      assert q[1..][k - 1] == q[k];
      assert q[..k] == [q[0]] + q[1..][..k - 1];
    }
  }

  lemma UnlinkedNoDup(q: seq<Task>, t: Task)
    requires NoDup(q) && t in q
    ensures NoDup(Unlinked(q, t)) && |Unlinked(q, t)| == |q| - 1
    ensures forall u :: u in Unlinked(q, t) <==> u in q && u != t
  {
    var k :| 0 <= k < |q| && q[k] == t;
    UnlinkedAt(q, k);
    var r := q[..k] + q[k + 1..];
    forall u | u in q && u != t ensures u in r {
      var i :| 0 <= i < |q| && q[i] == u;
      assert r[if i < k then i else i - 1] == u;
    }
    forall i, j | 0 <= i < j < |r| ensures r[i] != r[j] {
      assert q[if i < k then i else i + 1] != q[if j < k then j else j + 1];
    }
    forall i | 0 <= i < |r| ensures r[i] != t {
      assert q[if i < k then i else i + 1] != q[k];
    }
  }

  lemma Tail<T>(q: seq<T>)
    requires q != [] && NoDup(q)
    ensures NoDup(q[1..]) && q[0] in q && q[0] !in q[1..] && forall t :: t in q ==> t == q[0] || t in q[1..]
    ensures forall t :: t in q[1..] ==> t in q
  {
    forall i | 0 <= i < |q[1..]| ensures q[1..][i] != q[0] { assert q[i + 1] != q[0]; }
    forall i, j | 0 <= i < j < |q[1..]| ensures q[1..][i] != q[1..][j] { assert q[i + 1] != q[j + 1]; }
  }

  /** `head.t_svcprev` is the tail of the queue, the other links go both ways. */
  ghost predicate Linked(tasks: set<Task>, head: Head, q: seq<Task>)
    reads tasks`svcPrev, tasks`svcNext
  {
    && (forall t :: t in q ==> t in tasks)
    && (if q == [] then head.NoTask? else head == First(q[0]) && q[0].svcPrev == q[|q| - 1] && q[|q| - 1].svcNext == null)
    && (forall i {:trigger q[i]} :: 0 < i < |q| ==> q[i - 1].svcNext == q[i] && q[i].svcPrev == q[i - 1])
  }

  method PushTask(head: Head, task: Task, ghost tasks: set<Task>, ghost q: seq<Task>) returns (head': Head)
    requires Linked(tasks, head, q) && task in tasks && task !in q && NoDup(q)
    modifies tasks`svcPrev, tasks`svcNext
    ensures Linked(tasks, head', q + [task])
  {
    if head.First? {
      head' := head;
      var tail := head.task.svcPrev;
      task.svcPrev := tail;
      tail.svcNext := task;
      head.task.svcPrev := task;
    } else {
      task.svcPrev := task;
      head' := First(task);
    }
    task.svcNext := null;
    ghost var r := q + [task];
    forall i {:trigger r[i]} | 0 < i < |r| ensures r[i - 1].svcNext == r[i] && r[i].svcPrev == r[i - 1] {
      if i < |q| {
        assert r[i] == q[i] && q[i - 1] == r[i - 1];
      } else {
        assert r[i - 1] == q[|q| - 1];
      }
    }
  }

  /** The head of a queue leaves it. */
  method PopTask(head: Task, ghost tasks: set<Task>, ghost q: seq<Task>) returns (head': Head)
    requires q != [] && Linked(tasks, First(head), q) && NoDup(q)
    modifies tasks`svcPrev
    ensures Linked(tasks, head', q[1..]) && head == q[0]
  {
    Tail(q);
    var next := head.svcNext;
    head' := if next == null then NoTask else First(next);
    if next != null {
      next.svcPrev := head.svcPrev;
    }
    ghost var r := q[1..];
    if r != [] {
      assert q[1] == r[0] && q[|q| - 1] == r[|r| - 1];
    }
    forall i {:trigger r[i]} | 0 < i < |r| ensures r[i - 1].svcNext == r[i] && r[i].svcPrev == r[i - 1] {
      assert r[i] == q[i + 1] && r[i - 1] == q[i] && q[i + 1] != q[1];
    }
  }

  /** A task leaves its queue, wherever it is. */
  method UnlinkTask(head: Head, task: Task, ghost tasks: set<Task>, ghost q: seq<Task>) returns (head': Head)
    requires Linked(tasks, head, q) && task in q && NoDup(q)
    modifies tasks`svcPrev, tasks`svcNext
    ensures Linked(tasks, head', Unlinked(q, task))
  {
    ghost var k :| 0 <= k < |q| && q[k] == task;
    UnlinkedAt(q, k);
    assert k + 1 < |q| ==> q[k].svcNext == q[k + 1];
    if task == head.task {
      assert q[..0] + q[1..] == q[1..];
      head' := PopTask(task, tasks, q);
    } else if task.svcNext != null {
      head' := head;
      UnlinkMiddle(head, task, tasks, q, k);
    } else {
      head' := head;
      UnlinkLast(head, task, tasks, q);
      assert q[..k] + q[k + 1..] == q[..|q| - 1];
    }
  }

  method UnlinkMiddle(head: Head, task: Task, ghost tasks: set<Task>, ghost q: seq<Task>, ghost k: nat)
    requires Linked(tasks, head, q) && NoDup(q) && 0 < k < |q| - 1 && q[k] == task
    modifies tasks`svcPrev, tasks`svcNext
    ensures Linked(tasks, head, q[..k] + q[k + 1..])
  {
    hide NoDup;
    assert q[k + 1].svcPrev == q[k] && q[k].svcPrev == q[k - 1];
    var prev, next := task.svcPrev, task.svcNext;
    forall i | 0 <= i < |q| ensures (q[i] == next <==> i == k + 1) && (q[i] == prev <==> i == k - 1) {
      if i != k + 1 { Differ(q, i, k + 1); }
      if i != k - 1 { Differ(q, i, k - 1); }
    }
    next.svcPrev := prev;
    prev.svcNext := next;
    ghost var r := q[..k] + q[k + 1..];
    forall i {:trigger r[i]} | 0 < i < |r| ensures r[i - 1].svcNext == r[i] && r[i].svcPrev == r[i - 1] {
      ghost var j := if i < k then i else i + 1;
      ghost var before := if i <= k then i - 1 else i;
      assert r[i] == q[j] && r[i - 1] == q[before];
      assert q[j].svcPrev == (if j == k + 1 then prev else old(q[j].svcPrev));
      assert q[before].svcNext == (if before == k - 1 then next else old(q[before].svcNext));
      assert old(q[j].svcPrev) == q[j - 1] && old(q[before].svcNext) == q[before + 1];
    }
    assert r[0] == q[0] && r[|r| - 1] == q[|q| - 1];
  }

  lemma Differ(q: seq<Task>, i: nat, j: nat)
    requires NoDup(q) && i < |q| && j < |q| && i != j
    ensures q[i] != q[j]
  {
  }

  method UnlinkLast(head: Head, task: Task, ghost tasks: set<Task>, ghost q: seq<Task>)
    requires Linked(tasks, head, q) && NoDup(q) && |q| > 1 && q[|q| - 1] == task
    modifies tasks`svcPrev, tasks`svcNext
    ensures Linked(tasks, head, q[..|q| - 1])
  {
    var prev := task.svcPrev;
    assert q[|q| - 1].svcPrev == q[|q| - 2];
    prev.svcNext := null;
    head.task.svcPrev := prev;
    ghost var r := q[..|q| - 1];
    forall i {:trigger r[i]} | 0 < i < |r| ensures r[i - 1].svcNext == r[i] && r[i].svcPrev == r[i - 1] {
      assert q[i].svcPrev == q[i - 1] && q[i] != q[0] && q[i - 1] != q[|q| - 2];
    }
  }

  /** The first `n` tasks of a queue leave it; `task` is the one behind them. */
  method CutFront(head: Head, task: Task?, ghost tasks: set<Task>, ghost q: seq<Task>, ghost n: nat) returns (head': Head)
    requires Linked(tasks, head, q) && NoDup(q) && 0 < n <= |q| && task == if n < |q| then q[n] else null
    modifies tasks`svcPrev
    ensures Linked(tasks, head', q[n..])
  {
    if task != null {
      task.svcPrev := head.task.svcPrev;
      head' := First(task);
    } else {
      head' := NoTask;
    }
    ghost var r := q[n..];
    if r != [] {
      assert r[0] == q[n] && r[|r| - 1] == q[|q| - 1];
    }
    forall i {:trigger r[i]} | 0 < i < |r| ensures r[i - 1].svcNext == r[i] && r[i].svcPrev == r[i - 1] {
      assert r[i] == q[n + i] && r[i - 1] == q[n + i - 1] && q[n + i] != q[n];
    }
  }

  lemma NextOf(tasks: set<Task>, head: Head, q: seq<Task>, i: nat)
    requires Linked(tasks, head, q) && i < |q|
    ensures q[i] in tasks && q[i].svcNext == (if i + 1 < |q| then q[i + 1] else null)
    ensures head.First? && head.task == q[0]
  {
    if i + 1 < |q| {
      assert q[i + 1].svcPrev == q[i];
    }
  }
}
