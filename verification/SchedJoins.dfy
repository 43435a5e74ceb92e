/** The wake-up half of a join: nobody stays in a join without a child to wait for. */
module SchedJoins {
  import opened RbShape
  import opened Tasks
  import opened TimerQueue
  import opened SchedModel
  import opened SchedInvariant

  /** A task that nobody has killed, and that is to be resumed if it joins and has no child left. */
  ghost predicate Awaited(s: State, t: Task) {
    t in s.info ==> !s.info[t].sig && (s.Joining(t) ==> !s.Current(t) && (s.info[t].nsubs == 0 ==> s.Queued(t)))
  }

  lemma PushAwaited(s: State, u: Task, err: Errno, t: Task)
    requires u in s.info
    requires t in s.info ==> !s.info[t].sig && (s.Joining(t) ==> !s.Current(t) && (s.info[t].nsubs == 0 ==> s.Queued(t) || u == t))
    ensures Awaited(PushReady(s, u, err), t)
  {
    assert s.Queued(u) || u in (s.ready + [u]);
  }

  /** Starting, waking and killing others, and the death of the current task. */
  lemma QueueingAwaited(s: State, a: Step, t: Task)
    requires Inv(s) && Legal(s, a) && Awaited(s, t) && (a.DoStart? || a.DoWake? || a.DoKill?) && a != DoKill(t)
    ensures Awaited(Apply(s, a), t)
  {
    hide PushReady, Inv;
    match a
    case DoStart(u, joinable) =>
      if u !in s.info {
        PushAwaited(Entered(s, u, joinable), u, Ok, t);
      }
    case DoWake(u, err) =>
      if u in s.info {
        PushAwaited(s, u, err, t);
      }
    case DoKill(u) =>
      if u in s.info {
        PushAwaited(Marked(s, u), u, Ok, t);
      }
    case _ =>
  }

  lemma DeathAwaited(s: State, t: Task)
    requires Inv(s) && Awaited(s, t)
    ensures Awaited(Die(s), t)
  {
    hide PushReady, NoDup, Waits, Fifo, JoinsHonest;
    if s.control.Running? && s.control.task in s.info {
      var u := s.control.task;
      assert Counted(s, u);
      if s.info[u].super.Some? {
        var p := s.info[u].super.value;
        assert Counted(s, p);
        assert u in s.Children(p);
        if s.info[p].nsubs == -1 {
          PushAwaited(Buried(s, u), p, Ok, t);
        }
      }
    }
  }

  /** Switches: an unsignalled task that is resumed returns from its join. */
  lemma ResumeAwaited(s: State, u: Task, s1: State, t: Task)
    requires Awaited(s, t) && u in s1.info && s1.info.Keys == s.info.Keys && s.control.Idle?
    requires forall v :: v in s.info ==> s1.info[v] == s.info[v].(err := s1.info[v].err) && (v != u ==> (s.Queued(v) <==> s1.Queued(v)))
    ensures Awaited(Resume(s1, u), t)
  {
  }

  lemma SwitchAwaited(s: State, a: Step, t: Task)
    requires Inv(s) && Awaited(s, t) && (a.DoResumeNext? || a.DoFire? || a.DoEndHandler?)
    ensures Awaited(Apply(s, a), t)
  {
    hide Resume, Sorted, Unique, NoDup, Accounts, Fifo, JoinsHonest, Inserted;
    match a
    case DoResumeNext =>
      if s.control.Idle? && s.detached != [] && s.detached[0] in s.info {
        ResumeAwaited(s, s.detached[0], Taken(s), t);
      }
    case DoFire =>
      if s.control.Idle? && s.detached == [] && s.timers != [] && s.timers[0].deadline <= s.now && s.timers[0].task in s.info {
        ResumeAwaited(s, s.timers[0].task, Fired(s), t);
      }
    case DoEndHandler =>
    case _ =>
  }

  lemma BlockAwaited(s: State, a: Step, t: Task)
    requires Inv(s) && Legal(s, a) && Awaited(s, t) && (a.DoYield? || a.DoJoin? || a.DoTakeList? || a.DoTick?)
    ensures Awaited(Apply(s, a), t)
  {
    hide Inserted, Sorted, Unique, NoDup, Accounts, Fifo, JoinsHonest;
  }

  lemma {:induction false} RunAwaited(s: State, steps: seq<Step>, t: Task)
    requires Inv(s) && LegalRun(s, steps) && DoKill(t) !in steps && Awaited(s, t)
    ensures Inv(Run(s, steps)) && Awaited(Run(s, steps), t)
    decreases |steps|
  {
    hide Inv, Apply, Legal, Awaited;
    if |steps| != 0 {
      var a := steps[0];
      StepInv(s, a);
      if a.DoStart? || a.DoWake? || a.DoKill? {
        QueueingAwaited(s, a, t);
      } else if a.DoDie? {
        DeathAwaited(s, t);
        assert Apply(s, a) == Die(s) by { DieStep(s); }
      } else if a.DoResumeNext? || a.DoFire? || a.DoEndHandler? {
        SwitchAwaited(s, a, t);
      } else {
        BlockAwaited(s, a, t);
      }
      RunAwaited(Apply(s, a), steps[1..], t);
    }
  }

  lemma DieStep(s: State)
    ensures Apply(s, DoDie) == Die(s)
  {
  }

  /** Over every run in which a task is not killed, it is to be resumed when it is in a join and its last child has died. */
  lemma JoinWakes(now: real, steps: seq<Step>, t: Task)
    requires LegalRun(Init(now), steps) && DoKill(t) !in steps && Run(Init(now), steps).Joining(t)
    ensures var s := Run(Init(now), steps); !s.Current(t) && (s.Children(t) == {} ==> s.Queued(t))
  {
    hide Run, LegalRun, Inv;
    InitInv(now);
    RunAwaited(Init(now), steps, t);
    CountOf(Run(Init(now), steps), t);
  }

  lemma CountOf(s: State, t: Task)
    requires Inv(s) && t in s.info
    ensures Counted(s, t)
  {
  }
}
