/** The channel keeps its invariant over every fair run of channel calls and scheduler steps. */
module ChannelInvariant {
  import opened RbShape
  import opened Tasks
  import opened TimerQueue
  import opened SchedModel
  import opened SchedInvariant
  import opened ChannelModel

  // ---------- what a step of the scheduler does to the tasks inside the channel ----------

  /** As far as the channel can tell, nothing has happened to `t`. */
  ghost predicate Same(s: State, s': State, t: Task)
    requires t in s.info
  {
    && t in s'.info && (Inside(s, t) <==> Inside(s', t))
    && (Inside(s, t) ==>
      && s'.info[t].frame == s.info[t].frame && s'.info[t].sig == s.info[t].sig && s'.info[t].err == s.info[t].err
      && (s.Queued(t) <==> s'.Queued(t)) && (s.Current(t) <==> s'.Current(t)))
  }

  /** Nothing has happened inside the channel but to the tasks of `x`. */
  ghost predicate QuietBut(s: State, s': State, x: set<Task>) {
    && (forall t :: t in s.info && t !in x ==> Same(s, s', t))
    && (forall t :: t in s'.info && t !in s.info ==> !Inside(s', t))
  }

  lemma PushQuiet(s: State, t: Task, err: Errno)
    requires t in s.info
    ensures QuietBut(s, PushReady(s, t, err), {t})
    ensures !Inside(s, t) ==> QuietBut(s, PushReady(s, t, err), {})
  {
    hide Removed;
  }

  lemma QuietTrans(s: State, s1: State, s2: State)
    requires QuietBut(s, s1, {}) && QuietBut(s1, s2, {})
    ensures QuietBut(s, s2, {})
  {
    forall t | t in s.info ensures Same(s, s2, t) {
      assert Same(s, s1, t);
      assert Same(s1, s2, t);
    }
    forall t | t in s2.info && t !in s.info ensures !Inside(s2, t) {
      if t in s1.info {
        assert Same(s1, s2, t);
      }
    }
  }

  lemma StartQuiet(s: State, t: Task, joinable: bool)
    ensures QuietBut(s, Start(s, t, joinable), {})
  {
    if t !in s.info {
      var s1 := Entered(s, t, joinable);
      assert QuietBut(s, s1, {});
      PushQuiet(s1, t, Ok);
      QuietTrans(s, s1, PushReady(s1, t, Ok));
    }
  }

  lemma KillQuiet(s: State, t: Task)
    requires !Inside(s, t)
    ensures QuietBut(s, Kill(s, t), {})
  {
    if s.Alive(t) && !s.Current(t) {
      var s1 := Marked(s, t);
      assert QuietBut(s, s1, {});
      PushQuiet(s1, t, Ok);
      QuietTrans(s, s1, PushReady(s1, t, Ok));
    }
  }

  lemma DieQuiet(s: State)
    requires Inv(s)
    ensures QuietBut(s, Die(s), {})
  {
    if s.control.Running? {
      var t := s.control.task;
      BuriedQuiet(s, t);
      assert Counted(s, t);
      hide Places, Waits, Accounts, Fifo, JoinsHonest;
      if s.info[t].super.Some? && s.info[s.info[t].super.value].nsubs == -1 {
        var p := s.info[t].super.value;
        ParentJoins(s, p);
        PushQuiet(Buried(s, t), p, Ok);
        QuietTrans(s, Buried(s, t), Die(s));
      }
    }
  }

  lemma ParentJoins(s: State, p: Task)
    requires Inv(s) && p in s.info && s.info[p].nsubs < 0
    ensures s.Joining(p)
  {
    assert Counted(s, p);
  }

  lemma BuriedQuiet(s: State, t: Task)
    requires Inv(s) && s.control == Running(t)
    ensures QuietBut(s, Buried(s, t), {})
  {
    assert WaitsWell(s, t);
  }

  lemma SuspendQuiet(s: State, t: Task, f: Frame)
    requires t in s.info && s.Current(t) && !Inside(s, t)
    ensures QuietBut(s, Suspend(s, t, f), {t})
    ensures !f.wait.InRead? && !f.wait.InWrite? ==> QuietBut(s, Suspend(s, t, f), {})
  {
    hide Inserted;
  }

  lemma NotInside(s: State)
    requires Inv(s) && s.control.Running?
    ensures s.control.task in s.info && s.info[s.control.task].frame.None?
  {
    assert WaitsWell(s, s.control.task);
  }

  lemma JoinQuiet(s: State, sec: Option<real>)
    requires Inv(s)
    ensures QuietBut(s, Join(s, sec), {})
  {
    hide Inv, QuietBut;
    PassQuiet(s, s);
    if Join(s, sec) != s {
      NotInside(s);
      var t := s.control.task;
      var s0 := s.(info := s.info[t := s.info[t].(nsubs := -s.info[t].nsubs)]);
      CountQuiet(s, t, -s.info[t].nsubs);
      if !s.info[t].sig {
        SuspendQuiet(s0, t, Frame(s.now, Seconds(sec), false, InJoin));
        QuietTrans(s, s0, Join(s, sec));
      }
    }
  }

  lemma CountQuiet(s: State, t: Task, nsubs: int)
    requires t in s.info
    ensures QuietBut(s, s.(info := s.info[t := s.info[t].(nsubs := nsubs)]), {})
  {
  }

  /** No task inside the channel is, or has been, in a signal handler. */
  ghost predicate Unmarked(s: State) {
    forall t :: t in s.info && Inside(s, t) ==> !s.info[t].sig && !s.Current(t)
  }

  lemma EndHandlerQuiet(s: State)
    requires Unmarked(s) && Inv(s)
    ensures QuietBut(s, EndHandler(s), {}) && |s.answers| <= |EndHandler(s).answers| <= |s.answers| + 1
    ensures forall r :: r in EndHandler(s).answers[|s.answers|..] ==> !r.wait.InRead? && !r.wait.InWrite?
  {
    hide QuietBut, Inv, Suspend;
    PassQuiet(s, s);
    if EndHandler(s) != s {
      var t, f := s.control.task, s.info[s.control.task].frame.value;
      HandlerOutside(s);
      if !f.acceptEintr && !(f.sec > 0.0 && s.now - f.base >= f.sec) {
        SuspendQuiet(s, t, f);
        SuspendSilent(s, t, f);
      } else {
        ReturningQuiet(s, t, if f.acceptEintr then EINTR else ETIMEDOUT);
      }
    }
  }

  lemma HandlerOutside(s: State)
    requires Unmarked(s) && Inv(s) && s.control.Handling?
    ensures s.control.task in s.info && s.info[s.control.task].frame.Some? && !Inside(s, s.control.task)
    ensures var w := s.info[s.control.task].frame.value.wait; !w.InRead? && !w.InWrite?
  {
    assert WaitsWell(s, s.control.task);
  }

  lemma SuspendSilent(s: State, t: Task, f: Frame)
    requires t in s.info
    ensures Suspend(s, t, f).answers == s.answers
  {
  }

  lemma ReturningQuiet(s: State, t: Task, err: Errno)
    requires t in s.info && s.info[t].frame.Some? && !Inside(s, t) && Unmarked(s) && s.Current(t)
    ensures QuietBut(s, Returning(s, t, err), {})
  {
  }

  lemma ResumeQuiet(s: State, t: Task)
    requires Unmarked(s) && t in s.info && s.info[t].alive && s.control.Idle?
    ensures var s' := Resume(s, t);
      if Inside(s, t) then Returned(s, s', t, s.info[t].err) else
        && QuietBut(s, s', {}) && |s.answers| <= |s'.answers| <= |s.answers| + 1
        && (forall r :: r in s'.answers[|s.answers|..] ==> !r.wait.InRead? && !r.wait.InWrite?)
  {
    if Inside(s, t) {
      assert !s.info[t].sig;
    }
  }

  /** The call that `t` had blocked in has its do_yield returned. */
  ghost predicate Returned(s: State, s': State, t: Task, err: Errno) {
    && Inside(s, t) && QuietBut(s, s', {t}) && !Inside(s', t)
    && |s'.answers| == |s.answers| + 1
    && s'.answers[|s.answers|].task == t && s'.answers[|s.answers|].err == err
    && s'.answers[|s.answers|].wait == s.info[t].frame.value.wait
  }

  /** What any fair step of the scheduler does: no call of the channel returns, or one does. */
  ghost predicate Effect(s: State, s': State) {
    || (QuietBut(s, s', {}) && |s.answers| <= |s'.answers| <= |s.answers| + 1
        && (forall r :: r in s'.answers[|s.answers|..] ==> !r.wait.InRead? && !r.wait.InWrite?))
    || (exists t :: t in s.info && Returned(s, s', t, if s.Queued(t) then s.info[t].err else ETIMEDOUT))
  }

  /** `t` was taken out of a queue or the timer tree; nobody else was touched. */
  ghost predicate TookOut(s: State, s1: State, t: Task) {
    && t in s.info && s1.info.Keys == s.info.Keys && s1.control == s.control && s1.answers == s.answers
    && (forall u :: u in s.info && u != t ==> s1.info[u] == s.info[u] && (s.Queued(u) <==> s1.Queued(u)))
    && s1.info[t] == s.info[t].(err := s1.info[t].err)
  }

  lemma Through(s: State, s1: State, s': State, t: Task)
    requires TookOut(s, s1, t)
    ensures QuietBut(s1, s', {t}) ==> QuietBut(s, s', {t})
    ensures QuietBut(s1, s', {}) && !Inside(s, t) ==> QuietBut(s, s', {})
  {
    forall u | u in s.info ensures u != t ==> Same(s, s1, u) {
    }
    if QuietBut(s1, s', {t}) {
      forall u | u in s.info && u != t ensures Same(s, s', u) {
        assert Same(s1, s', u);
      }
    }
    if QuietBut(s1, s', {}) && !Inside(s, t) {
      forall u | u in s.info ensures Same(s, s', u) {
        assert Same(s1, s', u);
      }
    }
  }

  /** Resuming a task that was just taken out. */
  lemma ResumeEffect(s: State, s1: State, t: Task)
    requires TookOut(s, s1, t) && Unmarked(s) && s.info[t].alive && s.control.Idle?
    requires s1.info[t].err == if s.Queued(t) then s.info[t].err else ETIMEDOUT
    ensures Effect(s, Resume(s1, t))
  {
    hide QuietBut, Resume;
    ResumeQuiet(s1, t);
    Through(s, s1, Resume(s1, t), t);
    if Inside(s, t) {
      assert Returned(s, Resume(s1, t), t, if s.Queued(t) then s.info[t].err else ETIMEDOUT);
    }
  }

  lemma ResumeNextEffect(s: State)
    requires Inv(s) && Unmarked(s)
    ensures Effect(s, ResumeNext(s))
  {
    if ResumeNext(s) == s {
      NoEffect(s);
    } else {
      hide Inv, Unmarked, Effect, Resume;
      TakenFirst(s);
      TakenQueued(s);
      ResumeEffect(s, Taken(s), s.detached[0]);
    }
  }

  lemma NoEffect(s: State)
    ensures Effect(s, s)
  {
    assert QuietBut(s, s, {});
    assert s.answers[|s.answers|..] == [];
  }

  lemma TakenQueued(s: State)
    requires s.detached != []
    ensures s.Queued(s.detached[0]) && forall u :: u != s.detached[0] ==> (s.Queued(u) <==> Taken(s).Queued(u))
  {
    assert s.detached == [s.detached[0]] + s.detached[1..];
  }

  lemma FireEffect(s: State)
    requires Inv(s) && Unmarked(s)
    ensures Effect(s, Fire(s))
  {
    if Fire(s) == s {
      NoEffect(s);
    } else {
      hide Inv, Unmarked, Effect, Resume;
      assert !s.Queued(s.timers[0].task) by { FirstWaits(s); }
      FiredFirst(s);
      ResumeEffect(s, Fired(s), s.timers[0].task);
    }
  }

  lemma FirstWaits(s: State)
    requires Inv(s) && s.timers != []
    ensures !s.Queued(s.timers[0].task)
  {
    hide NoDup, Sorted, Unique, Waits, Accounts, Fifo, JoinsHonest;
    var t := s.timers[0].task;
    assert t in TimedTasks(s.timers);
    assert t in s.ready + s.detached <==> s.Queued(t);
  }

  /** A step that makes no do_yield return. */
  lemma QuietEffect(s: State, s': State)
    requires QuietBut(s, s', {}) && s'.answers == s.answers
    ensures Effect(s, s')
  {
    assert s'.answers[|s.answers|..] == [];
  }

  lemma StepEffect(s: State, a: Step)
    requires Inv(s) && Unmarked(s) && Legal(s, a)
    requires a.DoYield? ==> !a.wait.InRead? && !a.wait.InWrite?
    requires a.DoWake? || a.DoKill? ==> !Inside(s, a.task)
    ensures Effect(s, Apply(s, a))
  {
    hide Inv, Unmarked, Effect, QuietBut;
    NoEffect(s);
    match a
    case DoStart(t, joinable) => StartQuiet(s, t, joinable); QuietEffect(s, Start(s, t, joinable));
    case DoWake(t, err) =>
      if s.Alive(t) {
        PushQuiet(s, t, err);
        QuietEffect(s, PushReady(s, t, err));
      }
    case DoKill(t) => KillQuiet(s, t); QuietEffect(s, Kill(s, t));
    case DoYield(sec, accept, wait) => YieldEffect(s, sec, accept, wait);
    case DoJoin(sec) => JoinQuiet(s, sec); QuietEffect(s, Join(s, sec));
    case DoEndHandler => EndHandlerEffect(s);
    case DoDie => DieQuiet(s); QuietEffect(s, Die(s));
    case DoTakeList => PassQuiet(s, TakeList(s)); QuietEffect(s, TakeList(s));
    case DoResumeNext => ResumeNextEffect(s);
    case DoFire => FireEffect(s);
    case DoTick(now) => PassQuiet(s, Tick(s, now)); QuietEffect(s, Tick(s, now));
  }

  lemma PassQuiet(s: State, s': State)
    requires s'.info == s.info && s'.control == s.control && forall t :: t in s.info ==> (s.Queued(t) <==> s'.Queued(t))
    ensures QuietBut(s, s', {})
  {
  }

  lemma YieldEffect(s: State, sec: Option<real>, accept: bool, wait: Wait)
    requires Inv(s) && !wait.InRead? && !wait.InWrite?
    ensures Effect(s, Yield(s, sec, accept, wait))
  {
    hide Inv, Effect, QuietBut;
    NoEffect(s);
    if Yield(s, sec, accept, wait) != s {
      NotInside(s);
      SuspendQuiet(s, s.control.task, Frame(s.now, Seconds(sec), accept, wait));
      QuietEffect(s, Yield(s, sec, accept, wait));
    }
  }

  lemma EndHandlerEffect(s: State)
    requires Inv(s) && Unmarked(s)
    ensures Effect(s, EndHandler(s))
  {
    hide Inv, Unmarked, QuietBut, EndHandler;
    EndHandlerQuiet(s);
  }

  // ---------- what a change of the channel leaves alone ----------

  ghost predicate SameIn(ch: Chan, ch': Chan, t: Task) {
    && (t in ch.readers <==> t in ch'.readers) && (t in ch.writers <==> t in ch'.writers)
    && (t in ch.req <==> t in ch'.req) && (t in ch.req ==> ch.req[t] == ch'.req[t])
  }

  ghost predicate Grown(ch: Chan, ch': Chan) {
    && (forall e :: e in ch.accepted ==> e in ch'.accepted) && ch.refused <= ch'.refused && (ch'.open ==> ch.open)
  }

  lemma MemberKept(x: Sys, x': Sys, t: Task)
    requires t in x.sched.info && MemberWell(x, t) && Same(x.sched, x'.sched, t) && SameIn(x.ch, x'.ch, t) && Grown(x.ch, x'.ch)
    ensures MemberWell(x', t)
  {
  }

  /** Only the tasks of `changed` need to be looked at again. */
  lemma MembersKept(x: Sys, x': Sys, changed: set<Task>)
    requires Members(x) && QuietBut(x.sched, x'.sched, changed) && Grown(x.ch, x'.ch)
    requires forall t :: t in x.sched.info && t !in changed ==> SameIn(x.ch, x'.ch, t)
    requires forall t :: t in changed ==> t in x'.sched.info && MemberWell(x', t)
    requires forall t :: t in x'.ch.readers || t in x'.ch.writers || t in x'.ch.req ==> t in x.sched.info
    ensures Members(x')
  {
    hide MemberWell;
    forall t | t in x'.sched.info ensures MemberWell(x', t) {
      if t in x.sched.info {
        if t !in changed {
          MemberKept(x, x', t);
        }
      } else {
        NewOutside(x', t);
      }
    }
    forall t | t in x'.ch.readers || t in x'.ch.writers || t in x'.ch.req ensures t in x'.sched.info {
      if t !in changed {
        assert Same(x.sched, x'.sched, t);
      }
    }
  }

  lemma NewOutside(x: Sys, t: Task)
    requires t in x.sched.info && !Inside(x.sched, t) && t !in x.ch.readers && t !in x.ch.writers && t !in x.ch.req
    ensures MemberWell(x, t)
  {
  }

  lemma Unmarking(x: Sys)
    requires Members(x)
    ensures Unmarked(x.sched)
  {
    forall t | t in x.sched.info && Inside(x.sched, t) ensures !x.sched.info[t].sig && !x.sched.Current(t) {
      assert MemberWell(x, t);
    }
  }

  /** What was assigned to a reader stays with it. */
  lemma DeliveryKept(x: Sys, x': Sys, changed: set<Task>)
    requires Delivery(x) && Members(x) && QuietBut(x.sched, x'.sched, changed)
    requires x'.ch.taken == x.ch.taken && x'.ch.returned == x.ch.returned
    requires forall t :: t in x.sched.info && t !in changed ==> SameIn(x.ch, x'.ch, t)
    requires forall t :: t in x'.ch.req ==> t in x.sched.info
    requires forall t :: t in changed ==> t in x.sched.info && !Reading(x, t) && !Reading(x', t)
    ensures Delivery(x')
  {
    hide Inv;
    forall p | p in x'.ch.taken && p !in x'.ch.returned ensures Holding(x', p) {
      assert Holding(x, p);
      assert Same(x.sched, x'.sched, p.task);
    }
    forall t | t in x'.ch.req && x'.sched.Alive(t) && x'.sched.info[t].frame.Some? && x'.sched.info[t].frame.value.wait.InRead?
      ensures Parcel(t, x'.ch.req[t]) in x'.ch.taken && Parcel(t, x'.ch.req[t]) !in x'.ch.returned {
      assert Reading(x', t);
      assert Same(x.sched, x'.sched, t);
    }
  }

  /** In a read, with a message at hand. */
  ghost predicate Reading(x: Sys, t: Task) {
    t in x.ch.req && Inside(x.sched, t) && x.sched.info[t].frame.value.wait.InRead?
  }

  // ---------- the orders of messages ----------

  lemma EntriesPush(q: seq<Parcel>, p: Parcel)
    ensures Contents(q + [p]) == Contents(q) + [p.entry]
  {
  }

  /** Offers depend on the waiting writers only. */
  lemma OffersSame(ch: Chan, ch': Chan)
    requires ch'.writers == ch.writers && forall t :: t in ch.writers ==> (t in ch.req <==> t in ch'.req) && (t in ch.req ==> ch.req[t] == ch'.req[t])
    ensures ch'.Offers() == ch.Offers()
  {
    forall i | 0 <= i < |ch.writers| ensures ch'.Offers()[i] == ch.Offers()[i] {
      assert ch.writers[i] in ch.writers;
    }
  }

  lemma OffersFirst(ch: Chan)
    requires ch.writers != []
    ensures |ch.Offers()| == |ch.writers| && Admitted(ch).Offers() == ch.Offers()[1..] && Admitted(ch).Line() == ch.Line()
  {
    assert Admitted(ch).Line() == ch.Line();
  }
}
