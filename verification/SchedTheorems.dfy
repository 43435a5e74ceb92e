/** What the invariant of the scheduler means: one place per task, fair queueing, joins, timers. */
module SchedTheorems {
  import opened RbShape
  import opened Tasks
  import opened TimerQueue
  import opened SchedModel
  import opened SchedInvariant

  ghost function One(b: bool): nat { if b then 1 else 0 }

  /** Suspended without a time-out: only a wake-up or a signal brings it back. */
  ghost predicate Parked(s: State, t: Task) {
    s.Alive(t) && !s.Current(t) && !s.Queued(t) && !s.Timed(t) && s.info[t].frame.Some? && s.info[t].frame.value.sec <= 0.0
  }

  /** In every reachable state a live task is in exactly one place. */
  lemma OnePlace(now: real, steps: seq<Step>, t: Task)
    requires LegalRun(Init(now), steps)
    requires Run(Init(now), steps).Alive(t)
    ensures var s := Run(Init(now), steps);
      One(s.Current(t)) + One(t in s.ready) + One(t in s.detached) + One(s.Timed(t)) + One(Parked(s, t)) == 1
  {
    hide Inv, Run, LegalRun, Parked;
    InitInv(now);
    RunInv(Init(now), steps);
    OnePlaceNow(Run(Init(now), steps), t);
  }

  lemma OnePlaceNow(s: State, t: Task)
    requires Inv(s) && s.Alive(t)
    ensures One(s.Current(t)) + One(t in s.ready) + One(t in s.detached) + One(s.Timed(t)) + One(Parked(s, t)) == 1
  {
    hide Accounts, Fifo, JoinsHonest, Sorted, Unique, TimedTasks, NoDup;
    assert WaitsWell(s, t);
    if s.Queued(t) {
      assert t in s.ready + s.detached;
    }
    if t in s.ready {
      NotInBoth(s.ready, s.detached, t);
    }
  }

  lemma NotInBoth(a: seq<Task>, b: seq<Task>, t: Task)
    requires NoDup(a + b) && t in a
    ensures t !in b
  {
    var i :| 0 <= i < |a| && a[i] == t;
    forall j | 0 <= j < |b| ensures b[j] != t {
      assert (a + b)[i] != (a + b)[|a| + j];
    }
  }

  /** Waking a task twice queues it once, with the first error code. */
  lemma WakeTwice(s: State, t: Task, e1: Errno, e2: Errno)
    requires t in s.info
    ensures PushReady(PushReady(s, t, e1), t, e2) == PushReady(s, t, e1)
  {
    assert t in (s.ready + [t]);
  }

  /** Over every run, across all generations of the ready list, tasks are resumed in the order they were queued. */
  lemma QueueOrder(now: real, steps: seq<Step>)
    requires LegalRun(Init(now), steps)
    ensures var s := Run(Init(now), steps); s.resumed <= s.pushed
    ensures var s := Run(Init(now), steps); s.ready == [] && s.detached == [] ==> s.resumed == s.pushed
  {
    InitInv(now);
    RunInv(Init(now), steps);
  }

  /** Over every run, join_tasks returns 0 only where every joinable child has died. */
  lemma JoinedAllDead(now: real, steps: seq<Step>)
    requires LegalRun(Init(now), steps)
    ensures var s := Run(Init(now), steps);
      forall r :: r in s.answers && r.wait.InJoin? && r.err.Ok? ==> r.children == {}
  {
    InitInv(now);
    RunInv(Init(now), steps);
  }

  /** Over every run the count of a task tells its live children, and whether it is in a join. */
  lemma JoinCounts(now: real, steps: seq<Step>, t: Task)
    requires LegalRun(Init(now), steps) && t in Run(Init(now), steps).info
    ensures var s := Run(Init(now), steps);
      && (s.info[t].nsubs < 0 ==> s.Joining(t))
      && |s.Children(t)| == (if s.info[t].nsubs < 0 then -s.info[t].nsubs else s.info[t].nsubs)
  {
    InitInv(now);
    RunInv(Init(now), steps);
    assert Counted(Run(Init(now), steps), t);
  }

  // ---------- timers ----------

  /** The entries due at `now`. */
  ghost function Due(q: seq<Timer>, now: real): seq<Timer> {
    if q == [] || q[0].deadline > now then [] else [q[0]] + Due(q[1..], now)
  }

  ghost function Without(q: seq<Timer>, gone: set<Task>): seq<Timer> {
    if q == [] then [] else (if q[0].task in gone then [] else [q[0]]) + Without(q[1..], gone)
  }

  lemma {:induction false} DueInserted(q: seq<Timer>, e: Timer, now: real)
    requires e.deadline > now
    ensures Due(Inserted(q, e), now) == Due(q, now)
  {
    if q != [] && !(e.deadline < q[0].deadline) {
      DueInserted(q[1..], e, now);
    }
  }

  lemma {:induction false} DueRemoved(q: seq<Timer>, t: Task, now: real)
    requires Sorted(q)
    ensures Due(Removed(q, t), now) == Removed(Due(q, now), t)
  {
    if q != [] {
      if q[0].task == t {
        if q[0].deadline > now && |q| > 1 {
          assert q[0].deadline <= q[1].deadline;
        }
      } else {
        DueRemoved(q[1..], t, now);
      }
    }
  }

  lemma {:induction false} DueMembers(q: seq<Timer>, now: real)
    requires Sorted(q) && Unique(q)
    ensures Unique(Due(q, now)) && Due(q, now) <= q
    ensures forall e :: e in q && e.deadline <= now ==> e in Due(q, now)
  {
    DuePrefix(q, now);
    var d := Due(q, now);
    forall i, j | 0 <= i < j < |d| ensures d[i].task != d[j].task {
      assert d[i] == q[i] && d[j] == q[j];
    }
    forall i | |d| <= i < |q| ensures q[i].deadline > now {
      assert |d| < i ==> q[|d|].deadline <= q[i].deadline;
    }
    forall e | e in q && e.deadline <= now ensures e in d {
      var i :| 0 <= i < |q| && q[i] == e;
      assert d[i] == e;
    }
  }

  /** The due entries are the first ones, up to one that is not due. */
  lemma {:induction false} DuePrefix(q: seq<Timer>, now: real)
    ensures Due(q, now) <= q && (|Due(q, now)| < |q| ==> q[|Due(q, now)|].deadline > now)
  {
    if q != [] && q[0].deadline <= now {
      DuePrefix(q[1..], now);
      assert q == [q[0]] + q[1..];
    }
  }

  lemma {:induction false} WithoutNone(q: seq<Timer>, gone: set<Task>)
    requires forall e :: e in q ==> e.task !in gone
    ensures Without(q, gone) == q
  {
    if q != [] {
      assert q[0] in q;
      forall e | e in q[1..] ensures e in q {
      }
      WithoutNone(q[1..], gone);
    }
  }

  lemma {:induction false} WithoutJoin(a: seq<Timer>, b: seq<Timer>, gone: set<Task>)
    ensures Without(a + b, gone) == Without(a, gone) + Without(b, gone)
  {
    if a == [] {
      assert a + b == b;
    } else {
      WithoutJoin(a[1..], b, gone);
      assert (a + b)[1..] == a[1..] + b;
      Regroup(if a[0].task in gone then [] else [a[0]], Without(a[1..], gone), Without(b, gone));
    }
  }

  lemma Regroup(a: seq<Timer>, b: seq<Timer>, c: seq<Timer>)
    ensures a + (b + c) == (a + b) + c
  {
  }

  lemma {:induction false} WithoutTwice(q: seq<Timer>, x: set<Task>, y: set<Task>)
    ensures Without(Without(q, x), y) == Without(q, x + y)
  {
    if q != [] {
      WithoutTwice(q[1..], x, y);
      WithoutJoin(if q[0].task in x then [] else [q[0]], Without(q[1..], x), y);
    }
  }

  lemma {:induction false} WithoutOne(q: seq<Timer>, t: Task)
    requires Unique(q)
    ensures Without(q, {t}) == Removed(q, t)
  {
    if q != [] {
      if q[0].task == t {
        forall e | e in q[1..] ensures e.task !in {t} {
          var i :| 0 <= i < |q[1..]| && q[1..][i] == e;
          assert q[i + 1] == e;
        }
        WithoutNone(q[1..], {t});
      } else {
        WithoutOne(q[1..], t);
      }
    }
  }

  /** What a step at a fixed clock does to the due timers: none comes in, and none is lost but by firing or queueing. */
  ghost predicate Drains(s: State, s': State, gone: set<Task>) {
    && s'.now == s.now && s.fired <= s'.fired && s.pushed <= s'.pushed
    && s'.fired[|s.fired|..] + Due(s'.timers, s.now) == Without(Due(s.timers, s.now), gone)
    && (forall t :: t in gone ==> t in s'.pushed[|s.pushed|..] && t in TimedTasks(Due(s.timers, s.now)))
  }

  lemma SameDue(s: State, s': State)
    requires s'.now == s.now && s'.fired == s.fired && s.pushed <= s'.pushed && Due(s'.timers, s.now) == Due(s.timers, s.now)
    ensures Drains(s, s', {})
  {
    WithoutNone(Due(s.timers, s.now), {});
  }

  lemma PushDrains(s: State, t: Task, err: Errno) returns (gone: set<Task>)
    requires Sorted(s.timers) && Unique(s.timers) && t in s.info
    ensures Drains(s, PushReady(s, t, err), gone)
  {
    var s', d := PushReady(s, t, err), Due(s.timers, s.now);
    if s.Queued(t) {
      gone := {};
      SameDue(s, s');
    } else {
      DueRemoved(s.timers, t, s.now);
      DueMembers(s.timers, s.now);
      if t in TimedTasks(d) {
        gone := {t};
        WithoutOne(d, t);
        assert s'.pushed[|s.pushed|..] == [t];
        assert s'.fired[|s.fired|..] == [];
      } else {
        gone := {};
        RemovedAbsent(d, t);
        SameDue(s, s');
      }
    }
  }

  /** Suspending at a time not yet over brings in no due timer. */
  lemma SuspendDrains(s: State, t: Task, f: Frame)
    requires t in s.info && (f.sec > 0.0 ==> f.base + f.sec > s.now)
    ensures Drains(s, Suspend(s, t, f), {})
  {
    if f.sec > 0.0 {
      DueInserted(s.timers, Timer(t, f.base + f.sec), s.now);
    }
    SameDue(s, Suspend(s, t, f));
  }

  /** Firing takes the first due timer. */
  lemma FireDrains(s: State)
    requires Inv(s)
    ensures Drains(s, Fire(s), {})
  {
    hide Inv;
    var d := Due(s.timers, s.now);
    WithoutNone(d, {});
    if s.timers != [] && s.timers[0].deadline <= s.now && Fire(s) != s {
      var s' := Fire(s);
      assert s'.timers == s.timers[1..] && s'.fired == s.fired + [s.timers[0]] && s'.pushed == s.pushed;
      assert s'.fired[|s.fired|..] + Due(s'.timers, s.now) == d;
    } else {
      SameDue(s, Fire(s));
    }
  }

  lemma StepDrains(s: State, a: Step) returns (gone: set<Task>)
    requires Inv(s) && Legal(s, a) && !a.DoTick?
    ensures Drains(s, Apply(s, a), gone)
  {
    hide Drains, Accounts, Fifo, JoinsHonest, NoDup, Sorted, Unique;
    gone := {};
    match a
    case DoStart(t, joinable) =>
      SameDue(s, s);
      if t !in s.info {
        gone := PushDrains(Entered(s, t, joinable), t, Ok);
        DrainsAfter(s, Entered(s, t, joinable), PushReady(Entered(s, t, joinable), t, Ok), gone);
      }
    case DoWake(t, err) =>
      SameDue(s, s);
      if Wake(s, t, err) != s {
        gone := PushDrains(s, t, err);
      }
    case DoKill(t) =>
      SameDue(s, s);
      if s.Alive(t) && !s.Current(t) {
        gone := PushDrains(Marked(s, t), t, Ok);
        DrainsAfter(s, Marked(s, t), PushReady(Marked(s, t), t, Ok), gone);
      }
    case DoYield(sec, accept, wait) =>
      SameDue(s, s);
      if Yield(s, sec, accept, wait) != s {
        SuspendDrains(s, s.control.task, Frame(s.now, Seconds(sec), accept, wait));
      }
    case DoJoin(sec) =>
      SameDue(s, s);
      if Join(s, sec) != s {
        var t := s.control.task;
        var s0 := s.(info := s.info[t := s.info[t].(nsubs := -s.info[t].nsubs)]);
        SuspendDrains(s0, t, Frame(s.now, Seconds(sec), false, InJoin));
        DrainsAfter(s, s0, Join(s, sec), {});
      }
    case DoEndHandler => EndHandlerDrains(s);
    case DoDie => gone := DieDrains(s);
    case DoTakeList => SameDue(s, TakeList(s));
    case DoResumeNext => SameDue(s, ResumeNext(s));
    case DoFire => FireDrains(s);
  }

  /** The table of tasks does not matter to the timers. */
  lemma DrainsAfter(s: State, s1: State, s': State, gone: set<Task>)
    requires Drains(s1, s', gone)
    requires s1.now == s.now && s1.timers == s.timers && s1.fired == s.fired && s1.pushed == s.pushed
    ensures Drains(s, s', gone)
  {
  }

  lemma EndHandlerDrains(s: State)
    requires Inv(s)
    ensures Drains(s, EndHandler(s), {})
  {
    hide Drains, Inv;
    SameDue(s, s);
    if EndHandler(s) != s {
      var t, f := s.control.task, s.info[s.control.task].frame.value;
      if f.acceptEintr || (f.sec > 0.0 && s.now - f.base >= f.sec) {
        SameDue(s, EndHandler(s));
      } else {
        SuspendDrains(s, t, f);
      }
    }
  }

  lemma DieDrains(s: State) returns (gone: set<Task>)
    requires Inv(s)
    ensures Drains(s, Die(s), gone)
  {
    hide Drains;
    gone := {};
    SameDue(s, s);
    if s.control.Running? && s.control.task in s.info {
      var t := s.control.task;
      SameDue(s, Buried(s, t));
      if s.info[t].super.Some? && s.info[t].super.value in s.info && s.info[s.info[t].super.value].nsubs == -1 {
        ParentNotSelf(s, t);
        gone := PushDrains(Buried(s, t), s.info[t].super.value, Ok);
        DrainsAfter(s, Buried(s, t), Die(s), gone);
      }
    }
  }

  lemma ParentNotSelf(s: State, t: Task)
    requires Inv(s) && t in s.info
    ensures s.info[t].super != Some(t)
  {
    assert Counted(s, t);
  }

  lemma WithoutDisjoint(q: seq<Timer>, gone: set<Task>)
    requires TimedTasks(q) !! gone
    ensures Without(q, gone) == q
  {
    forall e | e in q ensures e.task !in gone {
      assert e.task in TimedTasks(q);
    }
    WithoutNone(q, gone);
  }

  lemma {:induction false} WithoutMember(q: seq<Timer>, gone: set<Task>, e: Timer)
    ensures e in Without(q, gone) <==> e in q && e.task !in gone
  {
    if q != [] {
      WithoutMember(q[1..], gone, e);
      assert e in q <==> e == q[0] || e in q[1..];
    }
  }

  /** In a duplicate-free queue split in two, no task is on both sides. */
  lemma SplitUnique(a: seq<Timer>, b: seq<Timer>)
    requires Unique(a + b)
    ensures TimedTasks(a) !! TimedTasks(b)
  {
    forall i, j | 0 <= i < |a| && 0 <= j < |b| ensures a[i].task != b[j].task {
      assert (a + b)[i].task != (a + b)[|a| + j].task;
    }
  }

  lemma {:induction false} WithoutUnique(q: seq<Timer>, gone: set<Task>)
    requires Unique(q)
    ensures Unique(Without(q, gone))
  {
    if q != [] {
      WithoutUnique(q[1..], gone);
      var r := Without(q[1..], gone);
      forall i | 0 <= i < |r| ensures r[i].task != q[0].task {
        WithoutMember(q[1..], gone, r[i]);
        var j :| 0 <= j < |q[1..]| && q[1..][j] == r[i];
        assert q[j + 1] == r[i];
      }
    }
  }

  /** Two filters of a duplicate-free queue, the second applied to what the first firings have left. */
  lemma WithoutCompose(d: seq<Timer>, f1: seq<Timer>, d1: seq<Timer>, g1: set<Task>, g2: set<Task>)
    requires Unique(d) && f1 + d1 == Without(d, g1)
    requires forall t :: t in g2 ==> t in TimedTasks(d1)
    ensures Without(d, g1 + g2) == f1 + Without(d1, g2)
    ensures forall t :: t in g2 ==> t in TimedTasks(d)
  {
    WithoutUnique(d, g1);
    SplitUnique(f1, d1);
    WithoutDisjoint(f1, g2);
    WithoutJoin(f1, d1, g2);
    WithoutTwice(d, g1, g2);
    forall t | t in g2 ensures t in TimedTasks(d) {
      var e :| e in d1 && e.task == t;
      assert e in f1 + d1;
      WithoutMember(d, g1, e);
    }
  }

  lemma DrainsTrans(s: State, s1: State, s2: State, g1: set<Task>, g2: set<Task>)
    requires Drains(s, s1, g1) && Drains(s1, s2, g2) && Unique(Due(s.timers, s.now))
    ensures Drains(s, s2, g1 + g2)
  {
    hide Unique, Without, Due, TimedTasks;
    var f1, f2, d2 := s1.fired[|s.fired|..], s2.fired[|s1.fired|..], Due(s2.timers, s.now);
    WithoutCompose(Due(s.timers, s.now), f1, Due(s1.timers, s.now), g1, g2);
    assert s2.fired[|s.fired|..] + d2 == f1 + (f2 + d2);
    assert s2.pushed[|s.pushed|..] == s1.pushed[|s.pushed|..] + s2.pushed[|s1.pushed|..];
  }

  /** No step at a fixed clock. */
  ghost predicate Still(steps: seq<Step>) { forall a :: a in steps ==> !a.DoTick? }

  lemma {:induction false} RunDrains(s: State, steps: seq<Step>) returns (gone: set<Task>)
    requires Inv(s) && LegalRun(s, steps) && Still(steps)
    ensures Drains(s, Run(s, steps), gone)
    decreases |steps|
  {
    hide Drains, Inv, Legal;
    if |steps| == 0 {
      SameDue(s, s);
      gone := {};
    } else {
      assert steps[0] in steps;
      DueUnique(s);
      StepInv(s, steps[0]);
      var g1 := StepDrains(s, steps[0]);
      forall a | a in steps[1..] ensures a in steps {
      }
      var g2 := RunDrains(Apply(s, steps[0]), steps[1..]);
      DrainsTrans(s, Apply(s, steps[0]), Run(s, steps), g1, g2);
      gone := g1 + g2;
    }
  }

  lemma {:induction false} RunJoin(s: State, a: seq<Step>, b: seq<Step>)
    ensures Run(s, a + b) == Run(Run(s, a), b)
    ensures LegalRun(s, a + b) <==> LegalRun(s, a) && LegalRun(Run(s, a), b)
    decreases |a|
  {
    hide Apply, Legal;
    if |a| == 0 {
      assert a + b == b;
    } else {
      assert (a + b)[1..] == a[1..] + b;
      RunJoin(Apply(s, a[0]), a[1..], b);
    }
  }

  lemma RunOne(s: State, a: Step)
    ensures Run(s, [a]) == Apply(s, a) && (LegalRun(s, [a]) <==> Legal(s, a))
  {
    hide Apply, Legal;
    assert [a][1..] == [];
    assert Run(Apply(s, a), []) == Apply(s, a);
  }

  /** Steps that code may take between two resumptions. */
  ghost predicate ByTask(a: Step) { !a.DoTick? && !a.DoTakeList? && !a.DoResumeNext? }

  /** `s'` is reached from `s` by the steps `done`, all of them legal, the clock standing still. */
  ghost predicate Went(s: State, done: seq<Step>, s': State) { LegalRun(s, done) && Still(done) && s' == Run(s, done) }

  ghost predicate Ran(s: State, done: seq<Step>, s': State) {
    Went(s, done, s') && s'.detached == s.detached && s'.resumed == s.resumed
  }

  lemma WentOn(s: State, a: seq<Step>, s1: State, b: seq<Step>, s2: State)
    requires Went(s, a, s1) && Went(s1, b, s2)
    ensures Went(s, a + b, s2)
  {
    RunJoin(s, a, b);
  }

  lemma WentStep(s: State, a: Step)
    requires Legal(s, a) && !a.DoTick?
    ensures Went(s, [a], Apply(s, a))
  {
    RunOne(s, a);
  }

  lemma RanNothing(s: State)
    ensures Ran(s, [], s)
  {
  }

  lemma RanStep(s: State, done: seq<Step>, s1: State, a: Step)
    requires Ran(s, done, s1) && Legal(s1, a) && ByTask(a)
    ensures Ran(s, done + [a], Apply(s1, a))
  {
    hide Apply, Legal, Went;
    WentStep(s1, a);
    WentOn(s, done, s1, [a], Apply(s1, a));
    DetachedKept(s1, a);
  }

  /** A step at a fixed clock that fires nothing lets no timer become due. */
  lemma WentDue(s: State, steps: seq<Step>, s': State)
    requires Inv(s) && Went(s, steps, s')
    ensures s'.now == s.now && |Due(s'.timers, s'.now)| <= |Due(s.timers, s.now)|
  {
    var gone := RunDrains(s, steps);
    WithoutLength(Due(s.timers, s.now), gone);
  }

  lemma FireDue(s: State)
    requires s.timers != [] && s.timers[0].deadline <= s.now && Fire(s).timers == s.timers[1..] && Fire(s).now == s.now
    ensures |Due(Fire(s).timers, s.now)| < |Due(s.timers, s.now)|
  {
  }

  lemma DetachedKept(s: State, a: Step)
    requires ByTask(a)
    ensures Apply(s, a).detached == s.detached && Apply(s, a).resumed == s.resumed
  {
  }

  lemma DueUnique(s: State)
    requires Inv(s)
    ensures Unique(Due(s.timers, s.now))
  {
    DueMembers(s.timers, s.now);
  }

  lemma {:induction false} WithoutLength(q: seq<Timer>, gone: set<Task>)
    ensures |Without(q, gone)| <= |q|
  {
    if q != [] {
      WithoutLength(q[1..], gone);
    }
  }

  /** While the clock stands still, whatever the resumed tasks do, the timers fired are those due at
    the start, in order of deadline and then of insertion, but for tasks queued before their turn;
    so there can be no more of them than were due, and when none is due any more all the others have fired. */
  lemma FirePass(s: State, steps: seq<Step>) returns (gone: set<Task>)
    requires Inv(s) && LegalRun(s, steps) && Still(steps)
    ensures s.fired <= Run(s, steps).fired && s.pushed <= Run(s, steps).pushed
    ensures var s' := Run(s, steps); var fired := s'.fired[|s.fired|..];
      && |fired| <= |Due(s.timers, s.now)|
      && fired <= Without(Due(s.timers, s.now), gone)
      && (Due(s'.timers, s.now) == [] ==> fired == Without(Due(s.timers, s.now), gone))
      && (forall t :: t in gone ==> t in s'.pushed[|s.pushed|..])
  {
    gone := RunDrains(s, steps);
    WithoutLength(Due(s.timers, s.now), gone);
  }

  /** Only the suspension and the return of a task change its frame. */
  lemma FrameKept(s: State, a: Step, t: Task)
    requires Inv(s) && t in s.info && s.info[t].frame.Some?
    requires t in Apply(s, a).info && Apply(s, a).info[t].frame.Some?
    ensures Apply(s, a).info[t].frame == s.info[t].frame
  {
    WaitOf(s, t);
    NotRunning(s, t);
    hide Inv, WaitsWell, Apply;
    if a.DoStart? || a.DoWake? || a.DoKill? || a.DoDie? {
      FrameWhileQueueing(s, a, t);
    } else if a.DoResumeNext? || a.DoFire? || a.DoEndHandler? {
      FrameWhileResuming(s, a, t);
    } else {
      FrameWhileBlocking(s, a, t);
    }
  }

  lemma FrameWhileQueueing(s: State, a: Step, t: Task)
    requires t in s.info && (a.DoStart? || a.DoWake? || a.DoKill? || a.DoDie?)
    ensures t in Apply(s, a).info && Apply(s, a).info[t].frame == s.info[t].frame
  {
    hide PushReady;
    match a
    case DoStart(u, joinable) =>
      if u !in s.info {
        PushFrame(Entered(s, u, joinable), u, Ok, t);
      }
    case DoWake(u, err) =>
      if u in s.info {
        PushFrame(s, u, err, t);
      }
    case DoKill(u) =>
      if u in s.info {
        PushFrame(Marked(s, u), u, Ok, t);
      }
    case DoDie =>
      if s.control.Running? && s.control.task in s.info && s.info[s.control.task].super.Some? && s.info[s.control.task].super.value in s.info {
        PushFrame(Buried(s, s.control.task), s.info[s.control.task].super.value, Ok, t);
      }
    case _ =>
  }

  lemma FrameWhileResuming(s: State, a: Step, t: Task)
    requires t in s.info && s.info[t].frame.Some? && (a.DoResumeNext? || a.DoFire? || a.DoEndHandler?)
    requires t in Apply(s, a).info && Apply(s, a).info[t].frame.Some?
    ensures Apply(s, a).info[t].frame == s.info[t].frame
  {
    hide Inserted;
  }

  lemma FrameWhileBlocking(s: State, a: Step, t: Task)
    requires t in s.info && s.info[t].frame.Some? && s.control != Running(t) && (a.DoYield? || a.DoJoin? || a.DoTakeList? || a.DoTick?)
    ensures t in Apply(s, a).info && Apply(s, a).info[t].frame == s.info[t].frame
  {
    hide Inserted;
  }

  lemma PushFrame(s: State, u: Task, err: Errno, t: Task)
    requires u in s.info && t in s.info
    ensures t in PushReady(s, u, err).info && PushReady(s, u, err).info[t].frame == s.info[t].frame
  {
  }

  lemma NotRunning(s: State, t: Task)
    requires t in s.info && WaitsWell(s, t) && s.info[t].frame.Some?
    ensures s.control != Running(t)
  {
  }

  /** At most one do_yield returns in a step, and only then is a frame gone. */
  lemma StepReturns(s: State, a: Step, t: Task)
    requires Inv(s) && t in s.info && s.info[t].frame.Some?
    ensures t in Apply(s, a).info && s.answers <= Apply(s, a).answers
    ensures Apply(s, a).info[t].frame.None? ==> exists r :: r in Apply(s, a).answers[|s.answers|..] && r.task == t
  {
    WaitOf(s, t);
    NotRunning(s, t);
    StepKnows(s, a, t);
    StepAnswers(s, a);
    hide Inv, WaitsWell, Apply;
    if a.DoStart? || a.DoWake? || a.DoKill? || a.DoDie? {
      FrameWhileQueueing(s, a, t);
    } else if a.DoResumeNext? || a.DoFire? || a.DoEndHandler? {
      ReturnWhileResuming(s, a, t);
    } else {
      FrameWhileBlocking(s, a, t);
    }
  }

  lemma StepAnswers(s: State, a: Step)
    ensures s.answers <= Apply(s, a).answers
  {
    hide PushReady, Inserted;
    PushAnswers();
  }

  lemma PushAnswers()
    ensures forall s: State, t: Task, err: Errno {:trigger PushReady(s, t, err)} :: t in s.info ==> PushReady(s, t, err).answers == s.answers
  {
  }

  lemma ReturnWhileResuming(s: State, a: Step, t: Task)
    requires t in s.info && s.info[t].frame.Some? && (a.DoResumeNext? || a.DoFire? || a.DoEndHandler?)
    requires t in Apply(s, a).info && s.answers <= Apply(s, a).answers
    ensures Apply(s, a).info[t].frame.None? ==> exists r :: r in Apply(s, a).answers[|s.answers|..] && r.task == t
  {
    hide Inserted;
    var q := Apply(s, a).answers;
    if Apply(s, a).info[t].frame.None? {
      assert |q| == |s.answers| + 1 && q[|s.answers|].task == t;
      assert q[|s.answers|..][0] == q[|s.answers|];
    }
  }

  /** No do_yield of `t` returns between the two states. */
  ghost predicate StillIn(s: State, s': State, t: Task) {
    s.answers <= s'.answers && forall r :: r in s'.answers[|s.answers|..] ==> r.task != t
  }

  /** Over any run, until its do_yield returns, a task keeps what it waits for, whatever signals take it out of
    the timer tree meanwhile; whenever it is back there, it is with the deadline of its first block. */
  lemma {:induction false} DeadlineKept(s: State, steps: seq<Step>, t: Task, f: Frame)
    requires Inv(s) && LegalRun(s, steps) && t in s.info && s.info[t].frame == Some(f)
    requires StillIn(s, Run(s, steps), t)
    ensures var s' := Run(s, steps);
      Inv(s') && t in s'.info && s'.info[t].frame == Some(f) && (s'.Timed(t) ==> Timer(t, f.base + f.sec) in s'.timers)
    decreases |steps|
  {
    hide Inv, Apply, Legal, WaitsWell;
    if |steps| == 0 {
      WaitOf(s, t);
      TimedWait(s, t);
    } else {
      var s1 := Apply(s, steps[0]);
      StepInv(s, steps[0]);
      StepReturns(s, steps[0], t);
      RunAnswers(s1, steps[1..]);
      StillInBoth(s, s1, Run(s, steps), t);
      FrameKept(s, steps[0], t);
      DeadlineKept(s1, steps[1..], t, f);
    }
  }

  lemma StillInBoth(s: State, s1: State, s': State, t: Task)
    requires StillIn(s, s', t) && s.answers <= s1.answers <= s'.answers
    ensures StillIn(s, s1, t) && StillIn(s1, s', t)
  {
    forall r | r in s1.answers[|s.answers|..] ensures r in s'.answers[|s.answers|..] {
      var i :| 0 <= i < |s1.answers[|s.answers|..]| && s1.answers[|s.answers|..][i] == r;
      assert s'.answers[|s.answers|..][i] == r;
    }
    forall r | r in s'.answers[|s1.answers|..] ensures r in s'.answers[|s.answers|..] {
      var i :| 0 <= i < |s'.answers[|s1.answers|..]| && s'.answers[|s1.answers|..][i] == r;
      assert s'.answers[|s.answers|..][i + |s1.answers| - |s.answers|] == r;
    }
  }

  lemma {:induction false} RunAnswers(s: State, steps: seq<Step>)
    ensures s.answers <= Run(s, steps).answers
    decreases |steps|
  {
    hide Apply;
    if |steps| != 0 {
      StepAnswers(s, steps[0]);
      RunAnswers(Apply(s, steps[0]), steps[1..]);
    }
  }

  lemma TimedWait(s: State, t: Task)
    requires t in s.info && WaitsWell(s, t) && s.info[t].frame.Some?
    ensures s.Timed(t) ==> Timer(t, s.info[t].frame.value.base + s.info[t].frame.value.sec) in s.timers
  {
  }

  /** When the signal handler of a task is done, do_yield returns or the task is back in the timer tree with the
    deadline that it had before the signal; the latter just when it accepts no EINTR and that deadline has not come. */
  lemma DeadlineAfterSignal(s: State, steps: seq<Step>, t: Task, deadline: real)
    requires Inv(s) && LegalRun(s, steps) && Timer(t, deadline) in s.timers
    requires StillIn(s, Run(s, steps), t) && Run(s, steps).control == Handling(t)
    ensures var s1 := Run(s, steps); var s2 := EndHandler(s1);
      && !s1.Timed(t) && t in s1.info && s1.info[t].frame.Some?
      && (s2.answers == s1.answers <==> !s1.info[t].frame.value.acceptEintr && deadline > s1.now)
      && (s2.answers == s1.answers ==> Timer(t, deadline) in s2.timers)
  {
    hide Inv, Apply, Run, LegalRun, WaitsWell;
    TimerOf(s, t, deadline);
    var f := s.info[t].frame.value;
    TimedForTime(s, t);
    DeadlineKept(s, steps, t, f);
    var s1 := Run(s, steps);
    UntimedInControl(s1, t);
    InsertedMember(s1.timers, Timer(t, deadline), Timer(t, deadline));
  }

  lemma TimedForTime(s: State, t: Task)
    requires Inv(s) && s.Timed(t)
    ensures t in s.info && s.info[t].frame.Some? && s.info[t].frame.value.sec > 0.0
  {
    assert s.Alive(t);
    assert WaitsWell(s, t);
  }

  lemma UntimedInControl(s: State, t: Task)
    requires Inv(s) && s.control == Handling(t)
    ensures !s.Timed(t)
  {
    assert s.Current(t);
  }

  /** A signal does take a task out of the timer tree. */
  lemma SignalUntimes(s: State, t: Task)
    requires Inv(s) && s.Timed(t)
    ensures !Kill(s, t).Timed(t) && t in Kill(s, t).ready
  {
    assert s.Alive(t) && !s.Current(t);
    MarkedInv(s, t);
    PushInv(Marked(s, t), t, Ok);
    assert t !in s.ready + s.detached;
    assert t in s.ready + [t];
  }

  lemma TimerOf(s: State, t: Task, deadline: real)
    requires Inv(s) && Timer(t, deadline) in s.timers
    ensures t in s.info && s.info[t].frame.Some? && deadline == s.info[t].frame.value.base + s.info[t].frame.value.sec
  {
    var e := Timer(t, deadline);
    assert t in TimedTasks(s.timers);
    assert WaitsWell(s, t);
    var f := Timer(t, s.info[t].frame.value.base + s.info[t].frame.value.sec);
    var i :| 0 <= i < |s.timers| && s.timers[i] == e;
    var j :| 0 <= j < |s.timers| && s.timers[j] == f;
    assert i == j;
  }

  lemma WaitOf(s: State, t: Task)
    requires Inv(s) && t in s.info
    ensures WaitsWell(s, t)
  {
  }

  lemma StepKnows(s: State, a: Step, t: Task)
    requires t in s.info
    ensures t in Apply(s, a).info
  {
    hide Inserted, Removed, TimedTasks;
  }
}
