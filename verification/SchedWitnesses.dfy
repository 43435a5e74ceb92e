/** Runs that come to where the counts of joins break: what the runs of the theorems exclude can happen. */
module SchedWitnesses {
  import opened Tasks
  import opened SchedModel
  import opened SchedInvariant
  import opened SchedTheorems

  /** A legal run grows by a legal step. */
  lemma OneMore(s0: State, steps: seq<Step>, s: State, a: Step)
    requires LegalRun(s0, steps) && s == Run(s0, steps) && Legal(s, a)
    ensures LegalRun(s0, steps + [a]) && Run(s0, steps + [a]) == Apply(s, a)
  {
    hide Apply, Legal;
    RunJoin(s0, steps, [a]);
    RunOne(s, a);
  }

  /** `s` is reached by the legal run `steps`. */
  ghost predicate At(now: real, steps: seq<Step>, s: State) { LegalRun(Init(now), steps) && s == Run(Init(now), steps) }

  lemma Go(now: real, steps: seq<Step>, s: State, a: Step) returns (steps': seq<Step>, s': State)
    requires At(now, steps, s) && Legal(s, a)
    ensures steps' == steps + [a] && s' == Apply(s, a) && At(now, steps', s')
  {
    hide Apply, Legal;
    OneMore(Init(now), steps, s, a);
    steps', s' := steps + [a], Apply(s, a);
  }

  /** A task is started and runs; it starts a child, if it is to have one. */
  lemma Parent(now: real, p: Task, c: Task) returns (steps: seq<Step>, s: State)
    requires p != c
    ensures At(now, steps, s) && s.now == now && s.control == Running(p) && s.ready == [c] && s.detached == [] && s.timers == [] && s.info.Keys == {p, c}
    ensures s.info[p] == Info(true, false, Ok, 1, None, None) && s.info[c] == Info(true, false, Ok, 0, Some(p), None)
  {
    steps, s := [], Init(now);
    steps, s := Go(now, steps, s, DoStart(p, false));
    steps, s := Go(now, steps, s, DoTakeList);
    steps, s := Go(now, steps, s, DoResumeNext);
    steps, s := Go(now, steps, s, DoStart(c, true));
  }

  /** It joins, and its child runs. */
  lemma Joined(now: real, p: Task, c: Task) returns (steps: seq<Step>, s: State)
    requires p != c
    ensures At(now, steps, s) && s.control == Running(c) && s.ready == [] && s.detached == [] && s.timers == [] && s.info.Keys == {p, c}
    ensures s.info[p] == Info(true, false, Ok, -1, None, Some(Frame(now, -1.0, false, InJoin)))
    ensures s.info[c] == Info(true, false, Ok, 0, Some(p), None)
  {
    steps, s := Parent(now, p, c);
    steps, s := Go(now, steps, s, DoJoin(None));
    steps, s := Go(now, steps, s, DoTakeList);
    steps, s := Go(now, steps, s, DoResumeNext);
  }

  /** The child kills it, and its signal handler has control. */
  lemma HandlerOfJoining(now: real, p: Task, c: Task) returns (steps: seq<Step>, s: State)
    requires p != c
    ensures At(now, steps, s) && s.control == Handling(p) && s.Joining(p) && s.info.Keys == {p, c}
  {
    steps, s := Joined(now, p, c);
    steps, s := Go(now, steps, s, DoKill(p));
    steps, s := Go(now, steps, s, DoYield(None, false, InSleep));
    steps, s := Go(now, steps, s, DoTakeList);
    steps, s := Go(now, steps, s, DoResumeNext);
  }

  /** There a joinable start breaks the counts. */
  lemma StartBreaksAccounts(now: real, p: Task, c: Task, d: Task) returns (steps: seq<Step>)
    requires p != c && p != d && c != d
    ensures LegalRun(Init(now), steps) && var s := Run(Init(now), steps);
      d !in s.info && Inv(s) && !Accounts(Entered(s, d, true))
  {
    var s;
    steps, s := HandlerOfJoining(now, p, c);
    InitInv(now);
    RunInv(Init(now), steps);
    StartKeepsAccounts(s, d, true);
  }

  /** A task that was killed before it first ran is in control, with a child. */
  lemma KilledParent(now: real, p: Task, c: Task) returns (steps: seq<Step>, s: State)
    requires p != c
    ensures At(now, steps, s) && s.control == Running(p) && p in s.info && s.info[p].sig && s.info[p].nsubs == 1
  {
    steps, s := [], Init(now);
    steps, s := Go(now, steps, s, DoStart(p, false));
    steps, s := Go(now, steps, s, DoKill(p));
    steps, s := Go(now, steps, s, DoTakeList);
    steps, s := Go(now, steps, s, DoResumeNext);
    steps, s := Go(now, steps, s, DoStart(c, true));
  }

  /** There a join breaks them. */
  lemma JoinBreaksAccounts(now: real, p: Task, c: Task) returns (steps: seq<Step>)
    requires p != c
    ensures LegalRun(Init(now), steps) && var s := Run(Init(now), steps); Inv(s) && !Inv(Join(s, None))
  {
    var s;
    steps, s := KilledParent(now, p, c);
    InitInv(now);
    RunInv(Init(now), steps);
    JoinKeepsAccounts(s, None);
  }

  /** A task joins its child, with another task ready as well. */
  lemma JoinedBesides(now: real, p: Task, c: Task, d: Task) returns (steps: seq<Step>, s: State)
    requires p != c && p != d && c != d
    ensures At(now, steps, s) && s.control == Idle && s.ready == [c, d] && s.detached == [] && s.timers == [] && s.info.Keys == {p, c, d}
    ensures s.info[p] == Info(true, false, Ok, -1, None, Some(Frame(now, -1.0, false, InJoin)))
    ensures s.info[c] == Info(true, false, Ok, 0, Some(p), None) && s.info[d] == Info(true, false, Ok, 0, None, None)
  {
    steps, s := Parent(now, p, c);
    steps, s := Go(now, steps, s, DoStart(d, false));
    steps, s := Go(now, steps, s, DoJoin(None));
  }

  /** It is queued as the child dies; the other task has control. */
  lemma LastChildDead(now: real, p: Task, c: Task, d: Task) returns (steps: seq<Step>, s: State)
    requires p != c && p != d && c != d
    ensures At(now, steps, s) && s.control == Running(d) && s.ready == [p] && s.detached == [] && s.timers == [] && s.info.Keys == {p, c, d}
    ensures s.info[p] == Info(true, false, Ok, 0, None, Some(Frame(now, -1.0, false, InJoin)))
    ensures !s.info[c].alive && s.info[d] == Info(true, false, Ok, 0, None, None)
  {
    steps, s := JoinedBesides(now, p, c, d);
    steps, s := Go(now, steps, s, DoTakeList);
    steps, s := Go(now, steps, s, DoResumeNext);
    assert s.control == Running(c) && s.detached == [d] && s.ready == [];
    steps, s := Go(now, steps, s, DoDie);
    assert s.ready == [p] && s.detached == [d];
    steps, s := Go(now, steps, s, DoResumeNext);
  }

  /** A kill before it is resumed swallows the wake-up: it blocks again, with no child left and no time-out. */
  lemma KillSwallowsWakeUp(now: real, p: Task, c: Task, d: Task) returns (steps: seq<Step>)
    requires p != c && p != d && c != d
    ensures LegalRun(Init(now), steps) && var s := Run(Init(now), steps);
      s.Joining(p) && s.Children(p) == {} && s.control.Idle? && !s.Queued(p) && !s.Timed(p)
  {
    var s;
    steps, s := LastChildDead(now, p, c, d);
    steps, s := Go(now, steps, s, DoKill(p));
    steps, s := Go(now, steps, s, DoDie);
    steps, s := Go(now, steps, s, DoTakeList);
    steps, s := Go(now, steps, s, DoResumeNext);
    assert s.control == Handling(p) && s.ready == [] && s.detached == [];
    steps, s := Go(now, steps, s, DoEndHandler);
    InitInv(now);
    RunInv(Init(now), steps);
    ChildrenOf(s, p);
  }

  lemma ChildrenOf(s: State, t: Task)
    requires Inv(s) && t in s.info && s.info[t].nsubs == 0
    ensures s.Children(t) == {}
  {
    assert Counted(s, t);
  }
}
