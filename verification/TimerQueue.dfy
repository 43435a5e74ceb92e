/** The timer queue as a list: entries by deadline, those of equal deadline in order of insertion. */
module TimerQueue {
  import opened Tasks

  datatype Timer = Timer(task: Task, deadline: real)

  ghost predicate Sorted(q: seq<Timer>) {
    forall i, j :: 0 <= i < j < |q| ==> q[i].deadline <= q[j].deadline
  }

  ghost predicate Unique(q: seq<Timer>) {
    forall i, j :: 0 <= i < j < |q| ==> q[i].task != q[j].task
  }

  ghost function TimedTasks(q: seq<Timer>): set<Task> { set e | e in q :: e.task }

  /** Stable insertion: behind every entry that is not due later. */
  ghost function Inserted(q: seq<Timer>, e: Timer): seq<Timer> {
    if q == [] || e.deadline < q[0].deadline then [e] + q else [q[0]] + Inserted(q[1..], e)
  }

  ghost function Removed(q: seq<Timer>, t: Task): seq<Timer> {
    if q == [] then [] else if q[0].task == t then q[1..] else [q[0]] + Removed(q[1..], t)
  }

  lemma {:induction false} InsertedBetween(a: seq<Timer>, e: Timer, b: seq<Timer>)
    requires forall i :: 0 <= i < |a| ==> a[i].deadline <= e.deadline
    requires b != [] ==> e.deadline < b[0].deadline
    ensures Inserted(a + b, e) == a + [e] + b
  {
    if a == [] {
      assert a + b == b;
    } else {
      InsertedBetween(a[1..], e, b);
      assert (a + b)[1..] == a[1..] + b;
      assert a + [e] + b == [a[0]] + (a[1..] + [e] + b);
    }
  }

  lemma {:induction false} RemovedBetween(a: seq<Timer>, e: Timer, b: seq<Timer>)
    requires forall i :: 0 <= i < |a| ==> a[i].task != e.task
    ensures Removed(a + [e] + b, e.task) == a + b
  {
    var s := a + [e] + b;
    if a == [] {
      assert s[1..] == b && a + b == b;
    } else {
      RemovedBetween(a[1..], e, b);
      assert s[1..] == a[1..] + [e] + b;
      assert a + b == [a[0]] + (a[1..] + b);
    }
  }

  lemma {:induction false} InsertedSorted(q: seq<Timer>, e: Timer)
    requires Sorted(q)
    ensures Sorted(Inserted(q, e)) && |Inserted(q, e)| == |q| + 1
    ensures q != [] ==> Inserted(q, e)[0].deadline == (if e.deadline < q[0].deadline then e.deadline else q[0].deadline)
    ensures q == [] ==> Inserted(q, e) == [e]
  {
    if q != [] && !(e.deadline < q[0].deadline) {
      InsertedSorted(q[1..], e);
    }
  }

  /** The entries of tasks `s`, due as `due` says. */
  ghost function Entries(s: seq<Task>, due: map<Task, real>): seq<Timer> {
    seq(|s|, i requires 0 <= i < |s| => Timer(s[i], if s[i] in due then due[s[i]] else 0.0))
  }

  lemma EntriesJoin(a: seq<Task>, b: seq<Task>, due: map<Task, real>)
    ensures Entries(a + b, due) == Entries(a, due) + Entries(b, due)
  {
  }

  lemma EntriesAgree(s: seq<Task>, due: map<Task, real>, due': map<Task, real>)
    requires forall x :: x in s ==> x in due && x in due' && due[x] == due'[x]
    ensures Entries(s, due) == Entries(s, due')
  {
  }

  /** In a sorted queue, what stands before an entry is due no later, what stands behind it no earlier. */
  lemma SortedAround(a: seq<Task>, x: Task, b: seq<Task>, due: map<Task, real>)
    requires Sorted(Entries(a + [x] + b, due)) && x in due
    requires forall y :: y in a + b ==> y in due
    ensures forall y :: y in a ==> due[y] <= due[x]
    ensures forall y :: y in b ==> due[x] <= due[y]
  {
    var q := Entries(a + [x] + b, due);
    assert q[|a|] == Timer(x, due[x]);
    forall y | y in a ensures due[y] <= due[x] {
      var i :| 0 <= i < |a| && a[i] == y;
      assert q[i].deadline <= q[|a|].deadline;
    }
    forall y | y in b ensures due[x] <= due[y] {
      var i :| 0 <= i < |b| && b[i] == y;
      assert q[|a|].deadline <= q[|a| + 1 + i].deadline;
    }
  }

  /** A task placed behind all that are due no later and before all others has been inserted. */
  lemma EntriesInserted(a: seq<Task>, x: Task, b: seq<Task>, due: map<Task, real>)
    requires x in due
    requires forall y :: y in a ==> y in due && due[y] <= due[x]
    requires forall y :: y in b ==> y in due && due[x] < due[y]
    ensures Entries(a + [x] + b, due) == Inserted(Entries(a + b, due), Timer(x, due[x]))
  {
    EntriesJoin(a, b, due);
    EntriesJoin(a, [x], due);
    EntriesJoin(a + [x], b, due);
    if b != [] {
      assert b[0] in b;
    }
    InsertedBetween(Entries(a, due), Timer(x, due[x]), Entries(b, due));
  }

  lemma EntriesRemoved(a: seq<Task>, x: Task, b: seq<Task>, due: map<Task, real>)
    requires x !in a
    ensures Entries(a + b, due) == Removed(Entries(a + [x] + b, due), x)
  {
    EntriesJoin(a, b, due);
    EntriesJoin(a, [x], due);
    EntriesJoin(a + [x], b, due);
    var e := Entries([x], due)[0];
    assert Entries([x], due) == [e];
    RemovedBetween(Entries(a, due), e, Entries(b, due));
  }

  lemma {:induction false} RemovedSorted(q: seq<Timer>, t: Task)
    requires Sorted(q)
    ensures Sorted(Removed(q, t)) && |q| - 1 <= |Removed(q, t)| <= |q|
    ensures q != [] && Removed(q, t) != [] ==> q[0].deadline <= Removed(q, t)[0].deadline
  {
    if q != [] && q[0].task != t {
      RemovedSorted(q[1..], t);
      if Removed(q[1..], t) != [] {
        assert q[0].deadline <= q[1].deadline;
      }
    }
  }

  lemma {:induction false} InsertedMember(q: seq<Timer>, e: Timer, x: Timer)
    ensures x in Inserted(q, e) <==> x in q || x == e
  {
    if q != [] && !(e.deadline < q[0].deadline) {
      InsertedMember(q[1..], e, x);
      assert x in q <==> x == q[0] || x in q[1..];
    }
  }

  lemma {:induction false} RemovedMember(q: seq<Timer>, t: Task, x: Timer)
    requires Unique(q)
    ensures x in Removed(q, t) <==> x in q && x.task != t
  {
    if q != [] {
      assert x in q <==> x == q[0] || x in q[1..];
      assert x in q[1..] ==> exists i :: 1 <= i < |q| && q[i] == x;
      if q[0].task != t {
        RemovedMember(q[1..], t, x);
      }
    }
  }

  lemma {:induction false} InsertedUnique(q: seq<Timer>, e: Timer)
    requires Unique(q) && e.task !in TimedTasks(q)
    ensures Unique(Inserted(q, e))
  {
    if q != [] && !(e.deadline < q[0].deadline) {
      var r := Inserted(q[1..], e);
      forall y | y in TimedTasks(q[1..]) ensures y in TimedTasks(q) {
        var x :| x in q[1..] && x.task == y;
        assert x in q;
      }
      InsertedUnique(q[1..], e);
      forall j | 0 <= j < |r| ensures r[j].task != q[0].task {
        InsertedMember(q[1..], e, r[j]);
        assert q[0] in q;
        if r[j] in q[1..] {
          var i :| 0 <= i < |q[1..]| && q[1..][i] == r[j];
          assert q[i + 1] == r[j];
        }
      }
    }
  }

  lemma {:induction false} RemovedUnique(q: seq<Timer>, t: Task)
    requires Unique(q)
    ensures Unique(Removed(q, t))
    ensures TimedTasks(Removed(q, t)) == TimedTasks(q) - {t}
  {
    var r := Removed(q, t);
    forall y | y in TimedTasks(r) ensures y in TimedTasks(q) - {t} {
      var x :| x in r && x.task == y;
      RemovedMember(q, t, x);
    }
    forall y | y in TimedTasks(q) - {t} ensures y in TimedTasks(r) {
      var x :| x in q && x.task == y;
      RemovedMember(q, t, x);
    }
    if q != [] && q[0].task != t {
      RemovedUnique(q[1..], t);
      var r1 := Removed(q[1..], t);
      forall j | 0 <= j < |r1| ensures r1[j].task != q[0].task {
        RemovedMember(q[1..], t, r1[j]);
        var i :| 0 <= i < |q[1..]| && q[1..][i] == r1[j];
        assert q[i + 1] == r1[j];
      }
    }
  }

  lemma InsertedTasks(q: seq<Timer>, e: Timer)
    ensures TimedTasks(Inserted(q, e)) == TimedTasks(q) + {e.task}
  {
    var r := Inserted(q, e);
    forall y | y in TimedTasks(r) ensures y in TimedTasks(q) + {e.task} {
      var x :| x in r && x.task == y;
      InsertedMember(q, e, x);
    }
    forall y | y in TimedTasks(q) + {e.task} ensures y in TimedTasks(r) {
      InsertedMember(q, e, e);
      if y != e.task {
        var x :| x in q && x.task == y;
        InsertedMember(q, e, x);
      }
    }
  }

  /** Taking a task off that is not in the queue changes nothing. */
  lemma {:induction false} RemovedAbsent(q: seq<Timer>, t: Task)
    requires t !in TimedTasks(q)
    ensures Removed(q, t) == q
  {
    if q != [] {
      assert q[0] in q;
      forall y | y in TimedTasks(q[1..]) ensures y in TimedTasks(q) {
        var x :| x in q[1..] && x.task == y;
        assert x in q;
      }
      RemovedAbsent(q[1..], t);
    }
  }
}
