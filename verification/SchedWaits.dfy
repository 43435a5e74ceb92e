/** How long a task waits, what its wait returns, and whose children tasks are. */
module SchedWaits {
  import opened Tasks
  import opened TimerQueue
  import opened SchedModel
  import opened SchedInvariant
  import opened SchedTheorems

  /** A task that blocked at `now` for `sec` is timed for just then: at least a millisecond later, and not at all
    without a time-out or with a negative one. */
  ghost predicate WaitsFor(s: State, t: Task, now: real, sec: Option<real>) {
    match sec
    case None => !s.Timed(t)
    case Some(v) =>
      if v < 0.0 then !s.Timed(t)
      else Timer(t, now + if v < 0.001 then 0.001 else v) in s.timers
  }

  lemma SuspendWaits(s: State, t: Task, f: Frame)
    requires t in s.info && !s.Timed(t)
    ensures var s' := Suspend(s, t, f);
      if f.sec > 0.0 then Timer(t, f.base + f.sec) in s'.timers else !s'.Timed(t)
  {
    InsertedMember(s.timers, Timer(t, f.base + f.sec), Timer(t, f.base + f.sec));
  }

  lemma RunningUntimed(s: State)
    requires Inv(s) && s.control.Running?
    ensures s.control.task in s.info && !s.Timed(s.control.task)
  {
    assert s.Current(s.control.task);
  }

  /** What a task that blocks waits for. */
  lemma BlockWaits(s: State, a: Step, sec: Option<real>)
    requires Inv(s) && s.control.Running? && Apply(s, a).control.Idle?
    requires a == DoJoin(sec) || (a.DoYield? && a.sec == sec)
    ensures WaitsFor(Apply(s, a), s.control.task, s.now, sec)
  {
    hide Inv, Suspend;
    RunningUntimed(s);
    var t := s.control.task;
    if a.DoYield? {
      SuspendWaits(s, t, Frame(s.now, Seconds(sec), a.acceptEintr, a.wait));
    } else {
      SuspendWaits(s.(info := s.info[t := s.info[t].(nsubs := -s.info[t].nsubs)]), t, Frame(s.now, Seconds(sec), false, InJoin));
    }
  }

  // ---------- the time-out ----------

  /** Timed, not in a join, and without a signal. */
  ghost predicate Sleeping(s: State, t: Task, deadline: real) {
    Timer(t, deadline) in s.timers && t in s.info && !s.info[t].sig && s.info[t].frame.Some? && !s.Joining(t)
  }

  /** In a step at most one do_yield returns: that of `t`, with `err`, in this one. */
  ghost predicate Answers(s: State, s': State, t: Task, err: Errno) {
    |s'.answers| == |s.answers| + 1 && s'.answers[..|s.answers|] == s.answers
    && s'.answers[|s.answers|].task == t && s'.answers[|s.answers|].err == err
  }

  ghost predicate Spares(a: Step, t: Task) { a != DoKill(t) && !(a.DoWake? && a.task == t) }

  lemma PushSleeping(s: State, u: Task, err: Errno, t: Task, deadline: real)
    requires u in s.info && u != t && Unique(s.timers) && Sleeping(s, t, deadline)
    ensures Sleeping(PushReady(s, u, err), t, deadline) && PushReady(s, u, err).answers == s.answers
  {
    RemovedMember(s.timers, u, Timer(t, deadline));
  }

  lemma SleepQueueing(s: State, a: Step, t: Task, deadline: real)
    requires Unique(s.timers) && Sleeping(s, t, deadline) && Spares(a, t) && (a.DoStart? || a.DoWake? || a.DoKill?)
    ensures Sleeping(Apply(s, a), t, deadline) && Apply(s, a).answers == s.answers
  {
    hide PushReady;
    match a
    case DoStart(u, joinable) =>
      if u !in s.info { PushSleeping(Entered(s, u, joinable), u, Ok, t, deadline); }
    case DoWake(u, err) =>
      if u in s.info { PushSleeping(s, u, err, t, deadline); }
    case DoKill(u) =>
      if u in s.info { PushSleeping(Marked(s, u), u, Ok, t, deadline); }
    case _ =>
  }

  lemma SleepDeath(s: State, t: Task, deadline: real)
    requires Inv(s) && Sleeping(s, t, deadline)
    ensures Sleeping(Die(s), t, deadline) && Die(s).answers == s.answers
  {
    hide PushReady, Waits, Fifo, JoinsHonest;
    if s.control.Running? && s.control.task in s.info {
      var u := s.control.task;
      assert Counted(s, u);
      if s.info[u].super.Some? && s.info[s.info[u].super.value].nsubs == -1 {
        var p := s.info[u].super.value;
        assert Counted(s, p);
        assert Sleeping(Buried(s, u), t, deadline);
        PushSleeping(Buried(s, u), p, Ok, t, deadline);
      }
    }
  }

  lemma SleepBlocking(s: State, a: Step, t: Task, deadline: real)
    requires Inv(s) && Sleeping(s, t, deadline) && (a.DoYield? || a.DoJoin? || a.DoTakeList? || a.DoTick? || a.DoEndHandler?)
    ensures Sleeping(Apply(s, a), t, deadline) && StillIn(s, Apply(s, a), t)
  {
    hide Inserted, Waits, Accounts, Fifo, JoinsHonest;
    assert t in TimedTasks(s.timers) && !s.Current(t);
    forall e ensures Timer(t, deadline) in Inserted(s.timers, e) {
      InsertedMember(s.timers, e, Timer(t, deadline));
    }
  }

  lemma SleepResuming(s: State, t: Task, deadline: real)
    requires Inv(s) && Sleeping(s, t, deadline)
    ensures Sleeping(ResumeNext(s), t, deadline) && StillIn(s, ResumeNext(s), t)
  {
    hide Waits, Accounts, Fifo, JoinsHonest, Sorted, Unique;
    assert t in TimedTasks(s.timers);
    if s.detached != [] {
      assert s.detached[0] in s.ready + s.detached;
    }
  }

  lemma SleepFiring(s: State, t: Task, deadline: real)
    requires Inv(s) && Sleeping(s, t, deadline)
    ensures if s.control.Idle? && s.detached == [] && s.timers[0] == Timer(t, deadline) && deadline <= s.now
      then Answers(s, Fire(s), t, ETIMEDOUT) else Sleeping(Fire(s), t, deadline) && StillIn(s, Fire(s), t)
  {
    hide Waits, Accounts, Fifo, JoinsHonest, Sorted;
    var i :| 0 <= i < |s.timers| && s.timers[i] == Timer(t, deadline);
    if i > 0 {
      assert s.timers[1..][i - 1] == Timer(t, deadline);
      assert s.timers[0].task != t;
    }
  }

  /** A sleeping task that nobody wakes or signals sleeps on, or its timer fires at its time. */
  lemma SleepStep(s: State, a: Step, t: Task, deadline: real)
    requires Inv(s) && Legal(s, a) && Sleeping(s, t, deadline) && Spares(a, t)
    ensures (Sleeping(Apply(s, a), t, deadline) && StillIn(s, Apply(s, a), t))
      || (a == DoFire && deadline <= s.now && Answers(s, Apply(s, a), t, ETIMEDOUT))
  {
    if a.DoStart? || a.DoWake? || a.DoKill? {
      UniqueTimers(s);
      hide Apply, Inv, Sleeping;
      SleepQueueing(s, a, t, deadline);
    } else if a.DoDie? {
      SleepDeath(s, t, deadline);
    } else if a.DoResumeNext? {
      SleepResuming(s, t, deadline);
    } else if a.DoFire? {
      SleepFiring(s, t, deadline);
    } else {
      SleepBlocking(s, a, t, deadline);
    }
  }

  lemma {:induction false} SleepRun(s: State, steps: seq<Step>, t: Task, deadline: real)
    requires Inv(s) && LegalRun(s, steps) && Sleeping(s, t, deadline) && StillIn(s, Run(s, steps), t)
    requires forall a :: a in steps ==> Spares(a, t)
    ensures Inv(Run(s, steps)) && Sleeping(Run(s, steps), t, deadline)
    decreases |steps|
  {
    hide Inv, Apply, Legal, Sleeping;
    if |steps| != 0 {
      var s1 := Apply(s, steps[0]);
      StepInv(s, steps[0]);
      SleepStep(s, steps[0], t, deadline);
      RunAnswers(s1, steps[1..]);
      StepAnswers(s, steps[0]);
      StillInBoth(s, s1, Run(s, steps), t);
      NoAnswer(s, s1, t);
      SleepRun(s1, steps[1..], t, deadline);
    }
  }

  lemma NoAnswer(s: State, s': State, t: Task)
    requires StillIn(s, s', t)
    ensures forall err :: !Answers(s, s', t, err)
  {
    forall err ensures !Answers(s, s', t, err) {
      if |s'.answers| == |s.answers| + 1 {
        assert s'.answers[|s.answers|..][0] == s'.answers[|s.answers|];
      }
    }
  }

  /** A task that blocks for `v` seconds and that nobody wakes or signals is in the timer tree for just then, and its
    do_yield returns when its timer fires, with ETIMEDOUT, when at least `v` seconds have passed. */
  lemma SleepsUntil(s: State, v: real, accept: bool, wait: Wait, steps: seq<Step>, a: Step)
    requires Inv(s) && s.control.Running? && v >= 0.001 && !wait.InJoin?
    requires var s1 := Apply(s, DoYield(Some(v), accept, wait));
      s1.control.Idle? && LegalRun(s1, steps) && Legal(Run(s1, steps), a) && StillIn(s1, Run(s1, steps), s.control.task)
    requires forall b :: b in steps + [a] ==> Spares(b, s.control.task)
    ensures var t, s1 := s.control.task, Apply(s, DoYield(Some(v), accept, wait)); var s2 := Run(s1, steps); var s3 := Apply(s2, a);
      && Timer(t, s.now + v) in s2.timers
      && (StillIn(s2, s3, t) || (a == DoFire && s2.now >= s.now + v && Answers(s2, s3, t, ETIMEDOUT)))
  {
    hide Inv, Run, LegalRun, Legal;
    var t, b := s.control.task, DoYield(Some(v), accept, wait);
    BlockWaits(s, b, Some(v));
    Unsignalled(s, v, accept, wait);
    YieldInv(s, Some(v), accept, wait);
    var s1 := Apply(s, b);
    hide Apply;
    forall c | c in steps ensures Spares(c, t) { assert c in steps + [a]; }
    SleepRun(s1, steps, t, s.now + v);
    assert a in steps + [a];
    SleepStep(Run(s1, steps), a, t, s.now + v);
  }

  lemma Unsignalled(s: State, v: real, accept: bool, wait: Wait)
    requires Inv(s) && s.control.Running? && !wait.InJoin?
    requires Apply(s, DoYield(Some(v), accept, wait)).control.Idle?
    ensures var s1, t := Apply(s, DoYield(Some(v), accept, wait)), s.control.task;
      t in s1.info && !s1.info[t].sig && s1.info[t].frame.Some? && !s1.Joining(t)
  {
    hide Inv, Inserted;
  }

  /** When its signal handler is done, a do_yield that accepts EINTR returns it, another one ETIMEDOUT if its time is
    over, and otherwise it goes on waiting. */
  lemma HandlerAnswers(s: State)
    requires Inv(s) && s.control.Handling?
    ensures s.control.task in s.info && s.info[s.control.task].frame.Some?
    ensures var t, s' := s.control.task, Apply(s, DoEndHandler);
      var f := s.info[t].frame.value;
      if f.acceptEintr then Answers(s, s', t, EINTR)
      else if f.sec > 0.0 && s.now >= f.base + f.sec then Answers(s, s', t, ETIMEDOUT)
      else StillIn(s, s', t) && s'.control.Idle? && (f.sec > 0.0 ==> Timer(t, f.base + f.sec) in s'.timers)
  {
    hide Inserted;
    var t := s.control.task;
    assert WaitsWell(s, t);
    var e := Timer(t, s.info[t].frame.value.base + s.info[t].frame.value.sec);
    InsertedMember(s.timers, e, e);
  }

  // ---------- wake-ups ----------

  /** Queued with `err`, and without a signal. */
  ghost predicate Roused(s: State, t: Task, err: Errno) {
    t in s.info && s.Queued(t) && s.info[t].err == err && !s.info[t].sig && s.info[t].frame.Some? && !s.Joining(t)
  }

  lemma PushRoused(s: State, u: Task, e: Errno, t: Task, err: Errno)
    requires u in s.info && Roused(s, t, err)
    ensures Roused(PushReady(s, u, e), t, err) && PushReady(s, u, e).answers == s.answers
  {
  }

  lemma RousedQueueing(s: State, a: Step, t: Task, err: Errno)
    requires Roused(s, t, err) && a != DoKill(t) && (a.DoStart? || a.DoWake? || a.DoKill?)
    ensures Roused(Apply(s, a), t, err) && Apply(s, a).answers == s.answers
  {
    hide PushReady;
    match a
    case DoStart(u, joinable) =>
      if u !in s.info { PushRoused(Entered(s, u, joinable), u, Ok, t, err); }
    case DoWake(u, e) =>
      if u in s.info { PushRoused(s, u, e, t, err); }
    case DoKill(u) =>
      if u in s.info { PushRoused(Marked(s, u), u, Ok, t, err); }
    case _ =>
  }

  lemma RousedDeath(s: State, t: Task, err: Errno)
    requires Inv(s) && Roused(s, t, err)
    ensures Roused(Die(s), t, err) && Die(s).answers == s.answers
  {
    hide PushReady, Waits, Fifo, JoinsHonest;
    if s.control.Running? && s.control.task in s.info {
      var u := s.control.task;
      assert Counted(s, u);
      if s.info[u].super.Some? && s.info[s.info[u].super.value].nsubs == -1 {
        PushRoused(Buried(s, u), s.info[u].super.value, Ok, t, err);
      }
    }
  }

  lemma RousedOther(s: State, a: Step, t: Task, err: Errno)
    requires Inv(s) && Roused(s, t, err) && (a.DoYield? || a.DoJoin? || a.DoTakeList? || a.DoTick? || a.DoEndHandler? || a.DoFire?)
    ensures Roused(Apply(s, a), t, err) && StillIn(s, Apply(s, a), t)
  {
    hide Inserted, Waits, Accounts, Fifo, JoinsHonest, Sorted, Unique;
    assert t in s.ready + s.detached;
    if s.timers != [] {
      assert s.timers[0].task in TimedTasks(s.timers);
    }
  }

  lemma RousedResuming(s: State, t: Task, err: Errno)
    requires Inv(s) && Roused(s, t, err)
    ensures if s.control.Idle? && s.detached != [] && s.detached[0] == t then Answers(s, ResumeNext(s), t, err)
      else Roused(ResumeNext(s), t, err) && StillIn(s, ResumeNext(s), t)
  {
    hide Waits, Accounts, Fifo, JoinsHonest, Sorted, Unique;
  }

  lemma RousedStep(s: State, a: Step, t: Task, err: Errno)
    requires Inv(s) && Legal(s, a) && Roused(s, t, err) && a != DoKill(t)
    ensures (Roused(Apply(s, a), t, err) && StillIn(s, Apply(s, a), t)) || (a == DoResumeNext && Answers(s, Apply(s, a), t, err))
  {
    if a.DoStart? || a.DoWake? || a.DoKill? {
      hide Apply, Inv, Roused;
      RousedQueueing(s, a, t, err);
    } else if a.DoDie? {
      RousedDeath(s, t, err);
    } else if a.DoResumeNext? {
      RousedResuming(s, t, err);
    } else {
      RousedOther(s, a, t, err);
    }
  }

  lemma {:induction false} RousedRun(s: State, steps: seq<Step>, t: Task, err: Errno)
    requires Inv(s) && LegalRun(s, steps) && Roused(s, t, err) && StillIn(s, Run(s, steps), t) && DoKill(t) !in steps
    ensures Inv(Run(s, steps)) && Roused(Run(s, steps), t, err)
    decreases |steps|
  {
    hide Inv, Apply, Legal, Roused;
    if |steps| != 0 {
      var s1 := Apply(s, steps[0]);
      StepInv(s, steps[0]);
      RousedStep(s, steps[0], t, err);
      RunAnswers(s1, steps[1..]);
      StepAnswers(s, steps[0]);
      StillInBoth(s, s1, Run(s, steps), t);
      NoAnswer(s, s1, t);
      RousedRun(s1, steps[1..], t, err);
    }
  }

  /** A blocked task that is woken with `err`, and is not signalled, is queued, and its do_yield returns `err` when it
    is resumed; no other step makes it return. */
  lemma WokenReturns(s: State, t: Task, err: Errno, steps: seq<Step>, a: Step)
    requires Inv(s) && s.Alive(t) && !s.Current(t) && !s.Queued(t) && !s.Joining(t) && !s.info[t].sig
    requires var s1 := Apply(s, DoWake(t, err)); LegalRun(s1, steps) && Legal(Run(s1, steps), a) && StillIn(s1, Run(s1, steps), t)
    requires DoKill(t) !in steps + [a]
    ensures var s2 := Run(Apply(s, DoWake(t, err)), steps); var s3 := Apply(s2, a);
      s2.Queued(t) && (StillIn(s2, s3, t) || (a == DoResumeNext && Answers(s2, s3, t, err)))
  {
    hide Inv, Run, LegalRun, Legal;
    WakeInv(s, t, err);
    WaitOf(s, t);
    var s1 := Apply(s, DoWake(t, err));
    assert t in s1.ready by { assert t in s.ready + [t]; }
    hide Apply;
    forall c | c in steps ensures c != DoKill(t) { assert c in steps + [a]; }
    RousedRun(s1, steps, t, err);
    assert a in steps + [a];
    RousedStep(Run(s1, steps), a, t, err);
  }

  // ---------- signals ----------

  /** Blocked, queued and signalled. */
  ghost predicate Signalled(s: State, t: Task) {
    t in s.info && s.Queued(t) && s.info[t].sig && s.info[t].frame.Some?
  }

  lemma PushSignalled(s: State, u: Task, e: Errno, t: Task)
    requires u in s.info && Signalled(s, t)
    ensures Signalled(PushReady(s, u, e), t) && PushReady(s, u, e).answers == s.answers
  {
  }

  lemma SignalledQueueing(s: State, a: Step, t: Task)
    requires Signalled(s, t) && (a.DoStart? || a.DoWake? || a.DoKill?)
    ensures Signalled(Apply(s, a), t) && Apply(s, a).answers == s.answers
  {
    hide PushReady;
    match a
    case DoStart(u, joinable) =>
      if u !in s.info { PushSignalled(Entered(s, u, joinable), u, Ok, t); }
    case DoWake(u, e) =>
      if u in s.info { PushSignalled(s, u, e, t); }
    case DoKill(u) =>
      if u in s.info { PushSignalled(Marked(s, u), u, Ok, t); }
    case _ =>
  }

  lemma SignalledDeath(s: State, t: Task)
    requires Inv(s) && Signalled(s, t)
    ensures Signalled(Die(s), t) && Die(s).answers == s.answers
  {
    hide PushReady, Waits, Fifo, JoinsHonest;
    if s.control.Running? && s.control.task in s.info {
      var u := s.control.task;
      assert Counted(s, u);
      if s.info[u].super.Some? && s.info[s.info[u].super.value].nsubs == -1 {
        PushSignalled(Buried(s, u), s.info[u].super.value, Ok, t);
      }
    }
  }

  lemma SignalledOther(s: State, a: Step, t: Task)
    requires Inv(s) && Signalled(s, t) && (a.DoYield? || a.DoJoin? || a.DoTakeList? || a.DoTick? || a.DoEndHandler? || a.DoFire?)
    ensures Signalled(Apply(s, a), t) && StillIn(s, Apply(s, a), t)
  {
    hide Inserted, Waits, Accounts, Fifo, JoinsHonest, Sorted, Unique;
    assert t in s.ready + s.detached;
    if s.timers != [] {
      assert s.timers[0].task in TimedTasks(s.timers);
    }
  }

  lemma SignalledStep(s: State, a: Step, t: Task)
    requires Inv(s) && Legal(s, a) && Signalled(s, t)
    ensures StillIn(s, Apply(s, a), t) && (Signalled(Apply(s, a), t) || (a == DoResumeNext && Apply(s, a).control == Handling(t)))
  {
    if a.DoStart? || a.DoWake? || a.DoKill? {
      hide Apply, Inv, Signalled;
      SignalledQueueing(s, a, t);
    } else if a.DoDie? {
      SignalledDeath(s, t);
    } else if a.DoResumeNext? {
      hide Waits, Accounts, Fifo, JoinsHonest, Sorted, Unique;
    } else {
      SignalledOther(s, a, t);
    }
  }

  /** A blocked task that is killed is queued, and when it is resumed its signal handler gets control; its do_yield does
    not return before. */
  lemma KillIsHandled(s: State, t: Task, steps: seq<Step>, a: Step)
    requires Inv(s) && s.Alive(t) && !s.Current(t) && s.info[t].frame.Some?
    requires var s1 := Apply(s, DoKill(t)); LegalRun(s1, steps) && Legal(Run(s1, steps), a)
    requires forall k: nat {:trigger steps[..k]} :: k <= |steps| ==> !Run(Apply(s, DoKill(t)), steps[..k]).Current(t)
    ensures var s2 := Run(Apply(s, DoKill(t)), steps); var s3 := Apply(s2, a);
      s2.Queued(t) && StillIn(s2, s3, t) && (s3.Current(t) ==> a == DoResumeNext && s3.control == Handling(t))
  {
    hide Inv, Run, LegalRun, Legal;
    KillInv(s, t);
    var s1 := Apply(s, DoKill(t));
    assert t in s1.ready + s1.detached by { assert t in s.ready + [t]; }
    hide Apply;
    SignalledRun(s1, steps, t);
    var s2 := Run(s1, steps);
    SignalledStep(s2, a, t);
    StepInv(s2, a);
    QueuedApart(Apply(s2, a), t);
  }

  lemma QueuedApart(s: State, t: Task)
    requires Inv(s)
    ensures Signalled(s, t) ==> !s.Current(t)
  {
    if Signalled(s, t) {
      assert t in s.ready + s.detached;
    }
  }

  lemma {:induction false} SignalledRun(s: State, steps: seq<Step>, t: Task)
    requires Inv(s) && LegalRun(s, steps) && Signalled(s, t)
    requires forall k: nat {:trigger steps[..k]} :: k <= |steps| ==> !Run(s, steps[..k]).Current(t)
    ensures Inv(Run(s, steps)) && Signalled(Run(s, steps), t)
    decreases |steps|
  {
    hide Inv, Apply, Legal, Signalled;
    if |steps| != 0 {
      var s1 := Apply(s, steps[0]);
      StepInv(s, steps[0]);
      SignalledStep(s, steps[0], t);
      assert steps[..1][1..] == [];
      assert Run(s, steps[..1]) == s1;
      forall k: nat | k <= |steps[1..]| ensures !Run(s1, steps[1..][..k]).Current(t) {
        assert steps[..k + 1][1..] == steps[1..][..k];
        assert !Run(s, steps[..k + 1]).Current(t);
      }
      SignalledRun(s1, steps[1..], t);
    }
  }

  // ---------- children ----------

  /** A joinable start by a task makes it the parent; a death takes the child away; nothing else changes whose
    children tasks are. */
  lemma ChildrenChange(s: State, a: Step, u: Task)
    requires Inv(s) && u in s.info
    ensures Apply(s, a).Children(u) ==
      if a.DoStart? && a.joinable && a.task !in s.info && s.Current(u) then s.Children(u) + {a.task}
      else if a.DoDie? && s.control.Running? then s.Children(u) - {s.control.task}
      else s.Children(u)
  {
    if a.DoStart? {
      StartChildren(s, a.task, a.joinable, u);
    } else if a.DoDie? {
      DeathChildren(s, u);
    } else {
      OtherChildren(s, a, u);
    }
  }

  lemma PushChildren(s: State, t: Task, err: Errno, u: Task)
    requires t in s.info
    ensures PushReady(s, t, err).Children(u) == s.Children(u)
  {
    hide Removed;
  }

  lemma StartChildren(s: State, t: Task, joinable: bool, u: Task)
    requires Inv(s) && u in s.info
    ensures Start(s, t, joinable).Children(u) == if t !in s.info && joinable && s.Current(u) then s.Children(u) + {t} else s.Children(u)
  {
    if t !in s.info {
      hide PushReady, Waits, Accounts, Fifo, JoinsHonest;
      PushChildren(Entered(s, t, joinable), t, Ok, u);
      EnteredChildren(s, t, joinable, u);
    }
  }

  lemma DeathChildren(s: State, u: Task)
    requires Inv(s) && u in s.info
    ensures Die(s).Children(u) == if s.control.Running? then s.Children(u) - {s.control.task} else s.Children(u)
  {
    hide PushReady, Waits, Fifo, JoinsHonest;
    if s.control.Running? {
      var t := s.control.task;
      var dead := s.(control := Idle, info := s.info[t := s.info[t].(alive := false)]);
      assert dead.Children(u) == s.Children(u) - {t};
      if s.info[t].super.Some? && s.info[t].super.value in s.info {
        var p := s.info[t].super.value;
        var n := dead.info[p].nsubs;
        var counted := dead.(info := dead.info[p := dead.info[p].(nsubs := if n < 0 then n + 1 else n - 1)]);
        assert counted.Children(u) == dead.Children(u);
        PushChildren(counted, p, Ok, u);
      }
    }
  }

  lemma OtherChildren(s: State, a: Step, u: Task)
    requires !a.DoStart? && !a.DoDie?
    ensures Apply(s, a).Children(u) == s.Children(u)
  {
    hide PushReady, Inserted;
    match a
    case DoWake(t, err) =>
      if t in s.info { PushChildren(s, t, err, u); }
    case DoKill(t) =>
      if t in s.info {
        var s1 := s.(info := s.info[t := s.info[t].(sig := true)]);
        PushChildren(s1, t, Ok, u);
        assert s1.Children(u) == s.Children(u);
      }
    case _ =>
  }

  lemma UniqueTimers(s: State)
    requires Inv(s)
    ensures Unique(s.timers)
  {
  }
}
