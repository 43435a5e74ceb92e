/** The scheduler keeps its invariant: every task has one place, and the join counts are right. */
module SchedInvariant {
  import opened RbShape
  import opened Tasks
  import opened TimerQueue
  import opened SchedModel

  // ---------- queueing ----------

  lemma PushPlaces(s: State, t: Task, err: Errno)
    requires Places(s) && s.Alive(t) && !s.Current(t)
    ensures Places(PushReady(s, t, err))
  {
    if !s.Queued(t) {
      var s' := PushReady(s, t, err);
      RemovedUnique(s.timers, t);
      RemovedSorted(s.timers, t);
      assert s'.ready + s'.detached == s.ready + [t] + s.detached;
      PushNoDup(s.ready, s.detached, t);
      forall u | u in s'.ready + s'.detached ensures s'.Alive(u) && !s'.Current(u) && !s'.Timed(u) {
        assert u == t || u in s.ready + s.detached;
      }
    }
  }

  lemma PushNoDup(a: seq<Task>, b: seq<Task>, t: Task)
    requires NoDup(a + b) && t !in a && t !in b
    ensures NoDup(a + [t] + b)
  {
    forall i, j | 0 <= i < j < |a| ensures a[i] != a[j] { assert (a + b)[i] != (a + b)[j]; }
    forall i, j | 0 <= i < j < |b| ensures b[i] != b[j] { assert (a + b)[|a| + i] != (a + b)[|a| + j]; }
    forall i, j | 0 <= i < |a| && 0 <= j < |b| ensures a[i] != b[j] { assert (a + b)[i] != (a + b)[|a| + j]; }
    NoDupJoin(a, t, b);
  }

  /** Queueing makes up for whatever was wrong with the wait of the queued task. */
  lemma PushWaits(s: State, t: Task, err: Errno)
    requires t in s.info && !s.Current(t) && Unique(s.timers)
    requires forall u :: u in s.info && u != t ==> WaitsWell(s, u)
    requires s.Queued(t) ==> WaitsWell(s, t)
    ensures Waits(PushReady(s, t, err))
  {
    if !s.Queued(t) {
      var s' := PushReady(s, t, err);
      RemovedUnique(s.timers, t);
      forall u | u in s'.info ensures WaitsWell(s', u) {
        if u != t && s.Timed(u) {
          RemovedMember(s.timers, t, Timer(u, s.info[u].frame.value.base + s.info[u].frame.value.sec));
        }
      }
    }
  }

  lemma PushFifo(s: State, t: Task, err: Errno)
    requires Fifo(s) && t in s.info
    ensures Fifo(PushReady(s, t, err))
  {
  }

  lemma PushAccounts(s: State, t: Task, err: Errno)
    requires Accounts(s) && t in s.info
    requires s.Joining(t) && !s.info[t].sig && err.Ok? ==> s.info[t].nsubs == 0
    ensures Accounts(PushReady(s, t, err))
  {
    var s' := PushReady(s, t, err);
    forall u | u in s'.info ensures Counted(s', u) {
      assert s'.Children(u) == s.Children(u);
      assert Counted(s, u);
    }
  }

  lemma PushInv(s: State, t: Task, err: Errno)
    requires Inv(s) && s.Alive(t) && !s.Current(t)
    requires s.Joining(t) && !s.info[t].sig && err.Ok? ==> s.info[t].nsubs == 0
    ensures Inv(PushReady(s, t, err))
  {
    PushPlaces(s, t, err);
    PushWaits(s, t, err);
    PushFifo(s, t, err);
    PushAccounts(s, t, err);
  }

  ghost function Marked(s: State, t: Task): State
    requires t in s.info
  {
    s.(info := s.info[t := s.info[t].(sig := true)])
  }

  lemma MarkedAccounts(s: State, t: Task)
    requires Accounts(s) && t in s.info
    ensures Accounts(Marked(s, t))
  {
    var s1 := Marked(s, t);
    forall u | u in s1.info ensures Counted(s1, u) {
      assert s1.Children(u) == s.Children(u);
      assert Counted(s, u);
    }
  }

  lemma MarkedInv(s: State, t: Task)
    requires Inv(s) && t in s.info
    ensures Inv(Marked(s, t))
  {
    hide NoDup, Sorted, Unique, Counted;
    MarkedAccounts(s, t);
    var s1 := Marked(s, t);
    forall u | u in s1.info ensures WaitsWell(s1, u) {
      assert WaitsWell(s, u);
    }
  }

  lemma KillInv(s: State, t: Task)
    requires Inv(s)
    ensures Inv(Kill(s, t))
  {
    if s.Alive(t) && !s.Current(t) {
      MarkedInv(s, t);
      PushInv(Marked(s, t), t, Ok);
    }
  }

  // ---------- starting and ending ----------

  /** The table of tasks with the new one entered and counted, before it is queued. */
  ghost function Entered(s: State, t: Task, joinable: bool): State
    requires t !in s.info
  {
    var child := joinable && !s.control.Idle? && s.control.task in s.info;
    var super := if child then Some(s.control.task) else None;
    var counted := if child then s.info[s.control.task := s.info[s.control.task].(nsubs := s.info[s.control.task].nsubs + 1)] else s.info;
    s.(info := counted[t := Info(true, false, Ok, 0, super, None)])
  }

  lemma EnteredChildren(s: State, t: Task, joinable: bool, u: Task)
    requires t !in s.info && u in s.info
    ensures Entered(s, t, joinable).Children(u) ==
      if joinable && s.Current(u) then s.Children(u) + {t} else s.Children(u)
    ensures t !in s.Children(u)
  {
  }

  /** Joinable starts keep the counts exactly when the starting task is not itself in a join. */
  lemma StartKeepsAccounts(s: State, t: Task, joinable: bool)
    requires Inv(s) && t !in s.info
    ensures Accounts(Entered(s, t, joinable)) <==> !(joinable && !s.control.Idle? && s.Joining(s.control.task))
  {
    var s' := Entered(s, t, joinable);
    if joinable && !s.control.Idle? && s.Joining(s.control.task) {
      var p := s.control.task;
      EnteredChildren(s, t, joinable, p);
      assert Counted(s, p);
      assert !Counted(s', p);
    } else {
      forall u | u in s'.info ensures Counted(s', u) {
        if u == t {
          NoChildrenYet(s, t, joinable);
        } else {
          EnteredChildren(s, t, joinable, u);
          assert Counted(s, u);
        }
      }
    }
  }

  lemma NoChildrenYet(s: State, t: Task, joinable: bool)
    requires Accounts(s) && Places(s) && t !in s.info
    ensures Entered(s, t, joinable).Children(t) == {}
  {
    forall c | c in s.info ensures s.info[c].super != Some(t) {
      assert Counted(s, c);
    }
  }

  lemma StartInv(s: State, t: Task, joinable: bool)
    requires Inv(s) && Legal(s, DoStart(t, joinable))
    ensures Inv(Start(s, t, joinable))
  {
    if t !in s.info {
      hide Inv, Places, Waits, Fifo, Accounts, JoinsHonest, PushReady, WaitsWell;
      var s1 := Entered(s, t, joinable);
      StartKeepsAccounts(s, t, joinable);
      EnteredRest(s, t, joinable);
      PushPlaces(s1, t, Ok);
      PushWaits(s1, t, Ok);
      PushFifo(s1, t, Ok);
      PushAccounts(s1, t, Ok);
      Started(s, t, joinable);
    }
  }

  lemma EnteredRest(s: State, t: Task, joinable: bool)
    requires Inv(s) && t !in s.info
    ensures var s1 := Entered(s, t, joinable);
      && Places(s1) && Fifo(s1) && JoinsHonest(s1) && Unique(s1.timers)
      && s1.Alive(t) && !s1.Current(t) && !s1.Queued(t) && !s1.Joining(t)
      && (!s.control.Idle? ==> s.control.task in s.info)
      && forall u :: u in s1.info && u != t ==> WaitsWell(s1, u)
  {
    hide NoDup, Sorted, Unique, Accounts;
    var s1 := Entered(s, t, joinable);
    assert t !in s.ready + s.detached;
    forall u | u in s1.info && u != t ensures WaitsWell(s1, u) {
      assert WaitsWell(s, u);
    }
  }

  lemma Started(s: State, t: Task, joinable: bool)
    requires t !in s.info
    ensures var s1 := Entered(s, t, joinable); t in s1.info && Start(s, t, joinable) == PushReady(s1, t, Ok)
    ensures PushReady(Entered(s, t, joinable), t, Ok).answers == s.answers
  {
    hide Removed;
  }

  /** The table after the death of `t`, its parent counted down but not yet woken. */
  ghost function Buried(s: State, t: Task): State
    requires t in s.info
  {
    var dead := s.(control := Idle, info := s.info[t := s.info[t].(alive := false)]);
    if s.info[t].super.Some? && s.info[t].super.value in s.info then
      var p := s.info[t].super.value;
      var n := dead.info[p].nsubs;
      dead.(info := dead.info[p := dead.info[p].(nsubs := if n < 0 then n + 1 else n - 1)])
    else dead
  }

  lemma BuriedChildren(s: State, t: Task, u: Task)
    requires Accounts(s) && s.Alive(t) && u in s.info
    ensures Buried(s, t).Children(u) == s.Children(u) - {t}
    ensures t in s.Children(u) <==> s.info[t].super == Some(u)
  {
    assert Counted(s, t);
  }

  lemma BuriedAccounts(s: State, t: Task)
    requires Inv(s) && s.control == Running(t)
    ensures Accounts(Buried(s, t))
    ensures s.info[t].super.Some? ==>
      var p := s.info[t].super.value;
      Buried(s, t).Joining(p) && Buried(s, t).info[p].nsubs == 0 <==> s.info[p].nsubs == -1
  {
    hide NoDup, Sorted, Unique, Counted;
    forall u | u in Buried(s, t).info ensures Counted(Buried(s, t), u) {
      BuriedCount(s, t, u);
    }
    if s.info[t].super.Some? {
      BuriedParent(s, t);
    }
  }

  lemma BuriedCount(s: State, t: Task, u: Task)
    requires Inv(s) && s.control == Running(t) && u in s.info
    ensures Counted(Buried(s, t), u)
  {
    hide NoDup, Sorted, Unique, Fifo, JoinsHonest;
    assert Counted(s, t) && WaitsWell(s, t) && Counted(s, u);
    BuriedChildren(s, t, u);
    if t in s.Children(u) {
      assert |s.Children(u) - {t}| == |s.Children(u)| - 1;
    } else {
      assert s.Children(u) - {t} == s.Children(u);
    }
  }

  lemma BuriedParent(s: State, t: Task)
    requires Inv(s) && s.control == Running(t) && s.info[t].super.Some?
    ensures var p := s.info[t].super.value;
      p in s.info && (Buried(s, t).Joining(p) && Buried(s, t).info[p].nsubs == 0 <==> s.info[p].nsubs == -1)
  {
    RunningAlive(s, t);
    hide Places, Waits, Fifo, JoinsHonest;
    var p := s.info[t].super.value;
    assert Counted(s, t);
    assert Counted(s, p);
    BuriedChildren(s, t, p);
    assert t in s.Children(p);
  }

  lemma RunningAlive(s: State, t: Task)
    requires Inv(s) && s.control == Running(t)
    ensures s.Alive(t)
  {
  }

  lemma BuriedPlaces(s: State, t: Task)
    requires Inv(s) && s.control == Running(t)
    ensures Places(Buried(s, t)) && Waits(Buried(s, t)) && Fifo(Buried(s, t)) && JoinsHonest(Buried(s, t))
  {
    hide NoDup, Sorted, Unique, Accounts, WaitsWell;
    var s1 := Buried(s, t);
    assert t !in s.ready + s.detached;
    forall u | u in s1.info ensures WaitsWell(s1, u) {
      BuriedWait(s, t, u);
    }
  }

  lemma BuriedWait(s: State, t: Task, u: Task)
    requires Inv(s) && s.control == Running(t) && u in s.info
    ensures WaitsWell(Buried(s, t), u)
  {
    hide Places, Accounts, Fifo, JoinsHonest;
    assert WaitsWell(s, u);
  }

  lemma DieInv(s: State)
    requires Inv(s)
    ensures Inv(Die(s))
  {
    if s.control.Running? {
      var t := s.control.task;
      BuriedPlaces(s, t);
      BuriedAccounts(s, t);
      assert Counted(s, t);
      hide Places, Waits, Fifo, Accounts;
      if s.info[t].super.Some? && s.info[s.info[t].super.value].nsubs == -1 {
        ParentAwaits(s, t);
        PushInv(Buried(s, t), s.info[t].super.value, Ok);
      }
    }
  }

  lemma ParentAwaits(s: State, t: Task)
    requires Inv(s) && s.control == Running(t) && s.info[t].super.Some?
    ensures s.info[t].super.value in s.info
    ensures var p := s.info[t].super.value;
      s.info[p].nsubs == -1 ==> Buried(s, t).Alive(p) && Buried(s, t).info[p].nsubs == 0
  {
    var p := s.info[t].super.value;
    assert Counted(s, t);
    assert Counted(s, p);
  }

  // ---------- suspending and resuming ----------

  /** The current task blocks: its wait is as do_yield wants it, and its count is negated if it joins. */
  lemma SuspendInv(s: State, t: Task, f: Frame)
    requires Places(s) && Fifo(s) && JoinsHonest(s) && s.Current(t) && t in s.info && s.info[t].alive
    requires forall u :: u in s.info && u != t ==> WaitsWell(s, u)
    requires Accounts(s.(info := s.info[t := s.info[t].(frame := Some(f))]))
    ensures Inv(Suspend(s, t, f))
  {
    var s' := Suspend(s, t, f);
    SuspendPlaces(s, t, f);
    SuspendWaits(s, t, f);
    var s1 := s.(info := s.info[t := s.info[t].(frame := Some(f))]);
    forall u | u in s'.info ensures Counted(s', u) {
      assert Counted(s1, u);
      assert s'.Children(u) == s1.Children(u);
    }
  }

  lemma SuspendPlaces(s: State, t: Task, f: Frame)
    requires Places(s) && s.Current(t) && t in s.info && s.info[t].alive
    ensures Places(Suspend(s, t, f))
  {
    hide NoDup, Sorted, Unique, Inserted;
    if f.sec > 0.0 {
      var e := Timer(t, f.base + f.sec);
      InsertedSorted(s.timers, e);
      InsertedUnique(s.timers, e);
      InsertedTasks(s.timers, e);
    }
  }

  lemma SuspendWaits(s: State, t: Task, f: Frame)
    requires Places(s) && s.Current(t) && t in s.info
    requires forall u :: u in s.info && u != t ==> WaitsWell(s, u)
    ensures Waits(Suspend(s, t, f))
  {
    hide Places, WaitsWell, Suspend;
    var s' := Suspend(s, t, f);
    SuspendedWait(s, t, f);
    forall u | u in s'.info ensures WaitsWell(s', u) {
      if u != t {
        OtherWait(s, t, f, u);
      }
    }
  }

  /** The wait of the task itself. */
  lemma SuspendedWait(s: State, t: Task, f: Frame)
    requires Places(s) && s.Current(t) && t in s.info
    ensures Suspend(s, t, f).info.Keys == s.info.Keys && WaitsWell(Suspend(s, t, f), t)
  {
    hide NoDup, Sorted, Unique, Inserted;
    var e := Timer(t, f.base + f.sec);
    InsertedTasks(s.timers, e);
    InsertedMember(s.timers, e, e);
  }

  /** Those of the others stay as they are. */
  lemma OtherWait(s: State, t: Task, f: Frame, u: Task)
    requires s.Current(t) && t in s.info && u in s.info && u != t && WaitsWell(s, u)
    ensures u in Suspend(s, t, f).info && WaitsWell(Suspend(s, t, f), u)
  {
    hide Inserted;
    var e := Timer(t, f.base + f.sec);
    InsertedTasks(s.timers, e);
    if s.Timed(u) {
      InsertedMember(s.timers, e, Timer(u, s.info[u].frame.value.base + s.info[u].frame.value.sec));
    }
  }

  /** Blocking changes no count, but joining negates that of the task that blocks. */
  lemma BlockedAccounts(s: State, t: Task, f: Frame)
    requires Accounts(s) && s.Alive(t) && s.Current(t) && !s.Queued(t) && s.info[t].frame.None?
    requires f.wait.InJoin? ==> s.info[t].nsubs > 0
    ensures var nsubs := if f.wait.InJoin? then -s.info[t].nsubs else s.info[t].nsubs;
      Accounts(s.(info := s.info[t := s.info[t].(nsubs := nsubs, frame := Some(f))]))
  {
    var nsubs := if f.wait.InJoin? then -s.info[t].nsubs else s.info[t].nsubs;
    var s1 := s.(info := s.info[t := s.info[t].(nsubs := nsubs, frame := Some(f))]);
    forall u | u in s1.info ensures Counted(s1, u) {
      assert Counted(s, u);
      assert s1.Children(u) == s.Children(u);
    }
  }

  lemma YieldInv(s: State, sec: Option<real>, accept: bool, wait: Wait)
    requires Inv(s)
    ensures Inv(Yield(s, sec, accept, wait))
  {
    hide NoDup, Sorted, Unique, Suspend, Counted;
    if s.control.Running? && !wait.InJoin? && !s.info[s.control.task].sig {
      var t, f := s.control.task, Frame(s.now, Seconds(sec), accept, wait);
      assert WaitsWell(s, t);
      BlockedAccounts(s, t, f);
      SuspendInv(s, t, f);
    }
  }

  lemma JoinInv(s: State, sec: Option<real>)
    requires Inv(s) && Legal(s, DoJoin(sec))
    ensures Inv(Join(s, sec))
  {
    hide NoDup, Sorted, Unique, Suspend, Counted;
    if s.control.Running? && s.info[s.control.task].nsubs > 0 {
      var t, f := s.control.task, Frame(s.now, Seconds(sec), false, InJoin);
      assert WaitsWell(s, t);
      BlockedAccounts(s, t, f);
      var s0 := s.(info := s.info[t := s.info[t].(nsubs := -s.info[t].nsubs)]);
      assert s0.info[t := s0.info[t].(frame := Some(f))] == s.info[t := s.info[t].(nsubs := -s.info[t].nsubs, frame := Some(f))];
      forall u | u in s0.info && u != t ensures WaitsWell(s0, u) {
        assert WaitsWell(s, u);
      }
      SuspendInv(s0, t, f);
    }
  }

  /** join_tasks keeps the counts exactly when the task has no signal pending, which can only be from
    before its first run: the error do_yield raises then leaves the count negated. */
  lemma JoinKeepsAccounts(s: State, sec: Option<real>)
    requires Inv(s) && s.control.Running? && s.info[s.control.task].nsubs > 0
    ensures Inv(Join(s, sec)) <==> !s.info[s.control.task].sig
  {
    var t := s.control.task;
    if s.info[t].sig {
      assert WaitsWell(s, t);
      assert !Counted(Join(s, sec), t);
    } else {
      JoinInv(s, sec);
    }
  }

  lemma ReturningAccounts(s: State, t: Task, err: Errno)
    requires Accounts(s) && s.Alive(t) && s.info[t].frame.Some?
    ensures Accounts(Returning(s, t, err))
  {
    var s' := Returning(s, t, err);
    forall u | u in s'.info ensures Counted(s', u) {
      assert Counted(s, u);
      assert s'.Children(u) == s.Children(u);
    }
  }

  lemma ReturningHonest(s: State, t: Task, err: Errno)
    requires Accounts(s) && JoinsHonest(s) && s.Alive(t) && s.info[t].frame.Some?
    requires s.Joining(t) && err.Ok? ==> s.info[t].nsubs == 0
    ensures JoinsHonest(Returning(s, t, err))
  {
    assert Counted(s, t);
  }

  lemma ReturningWaits(s: State, t: Task, err: Errno)
    requires t in s.info && s.info[t].frame.Some? && (s.control.Idle? || s.Current(t)) && !s.Timed(t)
    requires forall u :: u in s.info && u != t ==> WaitsWell(s, u)
    ensures Waits(Returning(s, t, err))
  {
    var s' := Returning(s, t, err);
    forall u | u in s'.info ensures WaitsWell(s', u) {
      assert u != t ==> WaitsWell(s, u);
    }
  }

  /** A task out of every queue is given control. */
  lemma ControlPlaces(s: State, s': State, t: Task)
    requires Places(s) && (s.control.Idle? || s.Current(t)) && s.Alive(t) && !s.Queued(t) && !s.Timed(t)
    requires s'.ready == s.ready && s'.detached == s.detached && s'.timers == s.timers && s'.info.Keys == s.info.Keys
    requires forall u :: u in s.info ==> s'.info[u].alive == s.info[u].alive
    requires s'.Current(t)
    ensures Places(s')
  {
    hide NoDup, Sorted, Unique;
  }

  /** do_yield returns: the count of a joining task is restored. */
  lemma ReturningInv(s: State, t: Task, err: Errno)
    requires Places(s) && Fifo(s) && Accounts(s) && JoinsHonest(s) && (s.control.Idle? || s.Current(t))
    requires s.Joining(t) && err.Ok? ==> s.info[t].nsubs == 0
    requires s.Alive(t) && s.info[t].frame.Some? && !s.Queued(t) && !s.Timed(t)
    requires forall u :: u in s.info && u != t ==> WaitsWell(s, u)
    ensures Inv(Returning(s, t, err))
  {
    hide Places, Accounts, Waits, WaitsWell;
    ReturningAccounts(s, t, err);
    ReturningHonest(s, t, err);
    ReturningWaits(s, t, err);
    ControlPlaces(s, Returning(s, t, err), t);
  }

  lemma EndHandlerInv(s: State)
    requires Inv(s)
    ensures Inv(EndHandler(s))
  {
    hide NoDup, Sorted, Unique, Suspend, Returning, Counted;
    if s.control.Handling? {
      var t := s.control.task;
      assert WaitsWell(s, t);
      var f := s.info[t].frame.value;
      if f.acceptEintr {
        ReturningInv(s, t, EINTR);
      } else if f.sec > 0.0 && s.now - f.base >= f.sec {
        ReturningInv(s, t, ETIMEDOUT);
      } else {
        assert s.info[t := s.info[t].(frame := Some(f))] == s.info;
        SuspendInv(s, t, f);
      }
    }
  }

  /** A task out of every queue is resumed. */
  lemma ResumeInv(s: State, t: Task)
    requires s.control.Idle? && Places(s) && Fifo(s) && Accounts(s) && JoinsHonest(s)
    requires s.Alive(t) && !s.Queued(t) && !s.Timed(t)
    requires s.Joining(t) && !s.info[t].sig && s.info[t].err.Ok? ==> s.info[t].nsubs == 0
    requires forall u :: u in s.info && u != t ==> WaitsWell(s, u)
    ensures Inv(Resume(s, t))
  {
    hide Places, Accounts, Waits, WaitsWell, Returning;
    var i := s.info[t];
    if i.frame.None? || i.sig {
      ControlPlaces(s, Resume(s, t), t);
      ResumeWaits(s, t);
      ResumeAccounts(s, t);
    } else {
      ReturningInv(s, t, i.err);
    }
  }

  lemma ResumeWaits(s: State, t: Task)
    requires s.control.Idle? && t in s.info && !s.Timed(t) && (s.info[t].frame.None? || s.info[t].sig)
    requires forall u :: u in s.info && u != t ==> WaitsWell(s, u)
    ensures Waits(Resume(s, t))
  {
    var s' := Resume(s, t);
    forall u | u in s'.info ensures WaitsWell(s', u) {
      assert u != t ==> WaitsWell(s, u);
    }
  }

  lemma ResumeAccounts(s: State, t: Task)
    requires Accounts(s) && t in s.info && !s.Queued(t) && (s.info[t].frame.None? || s.info[t].sig)
    ensures Accounts(Resume(s, t))
  {
    var s' := Resume(s, t);
    forall u | u in s'.info ensures Counted(s', u) {
      assert Counted(s, u);
      assert s'.Children(u) == s.Children(u);
    }
  }

  lemma ResumeNextInv(s: State)
    requires Inv(s)
    ensures Inv(ResumeNext(s))
  {
    if s.control.Idle? && s.detached != [] {
      hide Places, Accounts, Waits, WaitsWell, Resume;
      TakenFirst(s);
      TakenAccounts(s);
      ResumeInv(Taken(s), s.detached[0]);
    }
  }

  lemma DropNoDup(a: seq<Task>, b: seq<Task>)
    requires b != [] && NoDup(a + b)
    ensures NoDup(a + b[1..]) && b[0] !in a && b[0] !in b[1..]
    ensures b[0] in a + b && forall u :: u in a + b[1..] ==> u in a + b
  {
    var c, d := a + b, a + b[1..];
    assert c[|a|] == b[0];
    forall i | 0 <= i < |d| ensures d[i] != b[0] && d[i] in c {
      assert d[i] == c[if i < |a| then i else i + 1];
    }
    forall i | 0 <= i < |a| ensures a[i] != b[0] { assert d[i] == a[i]; }
    forall i | 0 <= i < |b[1..]| ensures b[1..][i] != b[0] { assert d[|a| + i] == b[1..][i]; }
    forall i, j | 0 <= i < j < |d| ensures d[i] != d[j] {
      assert c[if i < |a| then i else i + 1] != c[if j < |a| then j else j + 1];
    }
  }

  ghost function Taken(s: State): State
    requires s.detached != []
  {
    s.(detached := s.detached[1..], resumed := s.resumed + [s.detached[0]])
  }

  /** The first task of the detached list is taken off. */
  lemma TakenFirst(s: State)
    requires Inv(s) && s.control.Idle? && s.detached != []
    ensures var s1, t := Taken(s), s.detached[0];
      && Places(s1) && Fifo(s1) && JoinsHonest(s1) && s1.Alive(t) && !s1.Queued(t) && !s1.Timed(t)
      && (forall u :: u in s1.info && u != t ==> WaitsWell(s1, u))
  {
    hide NoDup, Sorted, Unique, Accounts;
    var s1, t := Taken(s), s.detached[0];
    assert s.detached == [t] + s.detached[1..];
    DropNoDup(s.ready, s.detached);
    forall u | u in s1.info && u != t ensures WaitsWell(s1, u) {
      assert WaitsWell(s, u);
    }
  }

  lemma TakenAccounts(s: State)
    requires Accounts(s) && s.detached != [] && s.detached[0] in s.info
    ensures Accounts(Taken(s))
    ensures var t := s.detached[0]; s.Joining(t) && !s.info[t].sig && s.info[t].err.Ok? ==> s.info[t].nsubs == 0
  {
    assert Counted(s, s.detached[0]);
    forall u | u in s.info ensures Counted(Taken(s), u) {
      assert Counted(s, u);
      assert Taken(s).Children(u) == s.Children(u);
    }
  }

  ghost function Fired(s: State): State
    requires s.timers != [] && s.timers[0].task in s.info
  {
    s.(timers := s.timers[1..], fired := s.fired + [s.timers[0]], info := s.info[s.timers[0].task := s.info[s.timers[0].task].(err := ETIMEDOUT)])
  }

  lemma FiredFirst(s: State)
    requires Inv(s) && s.control.Idle? && s.timers != []
    ensures s.timers[0].task in s.info
    ensures var s1, t := Fired(s), s.timers[0].task;
      && Places(s1) && Fifo(s1) && JoinsHonest(s1) && s1.Alive(t) && !s1.Queued(t) && !s1.Timed(t)
      && (forall u :: u in s1.info && u != t ==> WaitsWell(s1, u))
  {
    hide NoDup, Accounts;
    var t := s.timers[0].task;
    assert s.timers[0] in s.timers && t in TimedTasks(s.timers);
    var s1 := Fired(s);
    assert Removed(s.timers, t) == s.timers[1..];
    RemovedUnique(s.timers, t);
    RemovedSorted(s.timers, t);
    forall u | u in s1.info && u != t ensures WaitsWell(s1, u) {
      assert WaitsWell(s, u);
      if s.Timed(u) {
        RemovedMember(s.timers, t, Timer(u, s.info[u].frame.value.base + s.info[u].frame.value.sec));
      }
    }
  }

  lemma FiredAccounts(s: State)
    requires Accounts(s) && s.timers != [] && s.timers[0].task in s.info && !s.Queued(s.timers[0].task)
    ensures Accounts(Fired(s))
  {
    forall u | u in s.info ensures Counted(Fired(s), u) {
      assert Counted(s, u);
      assert Fired(s).Children(u) == s.Children(u);
    }
  }

  lemma FireInv(s: State)
    requires Inv(s)
    ensures Inv(Fire(s))
  {
    if s.control.Idle? && s.timers != [] {
      hide Places, Accounts, Waits, WaitsWell, Resume;
      FiredFirst(s);
      FiredAccounts(s);
      ResumeInv(Fired(s), s.timers[0].task);
    }
  }

  lemma QuietInv(s: State, s': State)
    requires Inv(s) && s.control.Idle? && s'.control.Idle?
    requires s'.timers == s.timers && s'.info == s.info && s'.ready + s'.detached == s.ready + s.detached && Fifo(s') && s'.answers == s.answers
    ensures Inv(s')
  {
    hide NoDup, Sorted, Unique, Counted, WaitsWell;
    forall u | u in s.info ensures Counted(s', u) && WaitsWell(s', u) {
      QuietTask(s, s', u);
    }
  }

  lemma QuietTask(s: State, s': State, u: Task)
    requires s.control.Idle? && s'.control.Idle? && u in s.info && Counted(s, u) && WaitsWell(s, u)
    requires s'.timers == s.timers && s'.info == s.info && s'.ready + s'.detached == s.ready + s.detached
    ensures Counted(s', u) && WaitsWell(s', u)
  {
    assert s'.Children(u) == s.Children(u);
    assert s'.Queued(u) <==> u in s'.ready + s'.detached;
    assert s.Queued(u) <==> u in s.ready + s.detached;
  }

  // ---------- every step, every run ----------

  /** Every step of the scheduler, and whatever tasks do between two suspensions, keeps the invariant. */
  lemma StepInv(s: State, a: Step)
    requires Inv(s) && Legal(s, a)
    ensures Inv(Apply(s, a))
  {
    hide Inv;
    match a
    case DoStart(t, joinable) => StartInv(s, t, joinable);
    case DoWake(t, err) => WakeInv(s, t, err);
    case DoKill(t) => KillInv(s, t);
    case DoYield(sec, accept, wait) => YieldInv(s, sec, accept, wait);
    case DoJoin(sec) => JoinInv(s, sec);
    case DoEndHandler => EndHandlerInv(s);
    case DoDie => DieInv(s);
    case DoTakeList => TakeListInv(s);
    case DoResumeNext => ResumeNextInv(s);
    case DoFire => FireInv(s);
    case DoTick(now) => TickInv(s, now);
  }

  lemma WakeInv(s: State, t: Task, err: Errno)
    requires Inv(s)
    ensures Inv(Wake(s, t, err))
  {
    if s.Alive(t) && !s.Current(t) && !s.Joining(t) {
      PushInv(s, t, err);
    }
  }

  lemma TakeListInv(s: State)
    requires Inv(s)
    ensures Inv(TakeList(s))
  {
    if s.control.Idle? && s.detached == [] {
      QuietInv(s, TakeList(s));
    }
  }

  lemma TickInv(s: State, now: real)
    requires Inv(s)
    ensures Inv(Tick(s, now))
  {
    if s.control.Idle? && s.detached == [] && now >= s.now {
      QuietInv(s, Tick(s, now));
    }
  }

  lemma {:induction false} RunInv(s: State, steps: seq<Step>)
    requires Inv(s) && LegalRun(s, steps)
    ensures Inv(Run(s, steps))
    decreases |steps|
  {
    hide Inv;
    if |steps| != 0 {
      StepInv(s, steps[0]);
      RunInv(Apply(s, steps[0]), steps[1..]);
    }
  }

  lemma InitInv(now: real)
    ensures Inv(Init(now))
  {
  }
}
