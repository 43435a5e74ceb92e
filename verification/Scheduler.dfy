/** The scheduler of tasklet.lua: the ready list linked through the tasks, the timer tree, coroutine switches. */
module Scheduler {
  import opened RbShape
  import opened Tasks
  import opened TimerQueue
  import opened RbTrees
  import opened SchedModel
  import opened SchedInvariant
  import opened SchedTheorems
  import opened SchedWaits

  /** A do_yield has returned `answer`, or none has returned. */
  ghost predicate Told(before: seq<SchedModel.Return>, after: seq<SchedModel.Return>, answer: Option<Errno>) {
    if answer.Some? then |after| == |before| + 1 && after[|before|].err == answer.value else after == before
  }

  class Tasklet {
    var now: real
    var current: Task?
    var handling: bool      // the current task is inside its signal handler
    var readyList: Task?
    var draining: Task?     // the local `task` of resume_list
    const timers: RbTree
    ghost var st: State
    var tasks: set<Task>    // all tasks ever started; no modelled code but the choice of arbitrary tasks reads it

    /** A list taken off: only the links forward still count. */
    ghost predicate ForwardLinks(head: Task?, q: seq<Task>)
      reads `tasks, tasks`next
    {
      && (forall t :: t in q ==> t in tasks)
      && (if q == [] then head == null else head == q[0] && q[|q| - 1].next == null)
      && (forall i {:trigger q[i]} :: 0 < i < |q| ==> q[i - 1].next == q[i])
    }

    /** `head.prev` is the tail of the list, the other links go both ways. */
    ghost predicate ReadyLinks(head: Task?, q: seq<Task>)
      reads `tasks, tasks`next, tasks`prev
    {
      && ForwardLinks(head, q)
      && (q != [] ==> q[0].prev == q[|q| - 1])
      && (forall i {:trigger q[i]} :: 0 < i < |q| ==> q[i].prev == q[i - 1])
    }

    ghost function Data(t: Task): Info
      reads t`err, t`alive, t`sig, t`nsubs, t`super, t`frame
    {
      Info(t.alive, t.sig, t.err, t.nsubs, if t.super == null then None else Some(t.super), t.frame)
    }

    /** The scheduling fields of every task are what the table says. */
    ghost predicate DataAre(m: map<Task, Info>)
      reads `tasks, tasks`err, tasks`alive, tasks`sig, tasks`nsubs, tasks`super, tasks`frame
    {
      m.Keys == tasks && forall t :: t in tasks ==> Data(t) == m[t]
    }

    /** `t_prev` marks the tasks that are in one of the two lists. */
    ghost predicate QueuedAre(q: seq<Task>, d: seq<Task>)
      reads `tasks, tasks`prev
    {
      forall t :: t in tasks ==> (t.prev != null <==> t in q || t in d)
    }

    /** `rb_key` marks the tasks that are in the timer tree. */
    ghost predicate TimedAre(timed: set<Task>)
      reads `tasks, tasks`key
    {
      timed <= tasks && forall t :: t in tasks ==> (t.key.Some? <==> t in timed)
    }

    ghost predicate ControlIs(c: Control)
      reads `current, `handling
    {
      match c
      case Idle => current == null
      case Running(t) => current == t && !handling
      case Handling(t) => current == t && handling
    }

    /** The two lists of tasks to be resumed. */
    ghost predicate Listed(q: seq<Task>, d: seq<Task>)
      reads `readyList, `draining, `tasks, tasks`prev, tasks`next
    {
      ReadyLinks(readyList, q) && ForwardLinks(draining, d) && QueuedAre(q, d)
    }

    ghost predicate TimersAre(q: seq<Timer>)
      reads timers`root, timers`count, timers`shape, timers`nodes, timers.sentinel`color
      reads timers.nodes`left, timers.nodes`right, timers.nodes`parent, timers.nodes`color, timers.nodes`key
      reads `tasks, tasks`key
    {
      timers.Is(q) && TimedAre(TimedTasks(q))
    }

    /** The object holds the state `s`. */
    ghost predicate Holds(s: State)
      reads `now, `current, `handling, `readyList, `draining, `tasks
      reads timers`root, timers`count, timers`shape, timers`nodes, timers.sentinel`color
      reads timers.nodes`left, timers.nodes`right, timers.nodes`parent, timers.nodes`color, timers.nodes`key
      reads tasks`err, tasks`alive, tasks`sig, tasks`nsubs, tasks`super, tasks`frame, tasks`prev, tasks`next, tasks`key
    {
      && now == s.now && ControlIs(s.control) && timers.sentinel !in tasks
      && Listed(s.ready, s.detached) && TimersAre(s.timers) && DataAre(s.info)
    }

    ghost predicate Valid()
      reads `now, `current, `handling, `readyList, `draining, `tasks, `st
      reads timers`root, timers`count, timers`shape, timers`nodes, timers.sentinel`color
      reads timers.nodes`left, timers.nodes`right, timers.nodes`parent, timers.nodes`color, timers.nodes`key
      reads tasks`err, tasks`alive, tasks`sig, tasks`nsubs, tasks`super, tasks`frame, tasks`prev, tasks`next, tasks`key
    {
      Holds(st) && Inv(st)
    }

    lemma SentinelApart()
      requires Valid()
      ensures timers.sentinel !in tasks && st.info.Keys == tasks
    {
    }

    constructor (now: real)
      ensures Valid() && st == Init(now)
      ensures fresh(timers) && fresh(timers.sentinel)
    {
      this.now := now;
      current, handling, readyList, draining := null, false, null, null;
      timers := new RbTree();
      st, tasks := Init(now), {};
      new;
      InitInv(now);
    }

    /** A task that is in no list goes to the end of the ready list. */
    method Append(task: Task, ghost q: seq<Task>)
      requires ReadyLinks(readyList, q) && task !in q && task in tasks && NoDup(q)
      modifies `readyList, tasks`next, tasks`prev
      ensures ReadyLinks(readyList, q + [task])
      ensures forall t :: t in tasks && t !in q && t != task ==> t.next == old(t.next) && t.prev == old(t.prev)
      ensures forall t :: t in q ==> (old(t.prev) != null ==> t.prev != null)
      ensures task.prev != null
    {
      if readyList != null {
        var tail: Task := readyList.prev;
        task.prev := tail;
        tail.next := task;
        readyList.prev := task;
      } else {
        task.prev := task;
        readyList := task;
      }
      task.next := null;
      ghost var r := q + [task];
      forall i {:trigger r[i]} | 0 < i < |r| ensures r[i - 1].next == r[i] && r[i].prev == r[i - 1] {
        if i < |q| {
          assert r[i] == q[i] && q[i - 1] == r[i - 1];
        } else {
          assert r[i - 1] == q[|q| - 1];
        }
      }
    }

    /** The queueing half of push_ready. */
    method Queue(task: Task, ghost q: seq<Task>, ghost d: seq<Task>)
      requires Listed(q, d)
      requires task in tasks && task !in q && task !in d && NoDup(q + d)
      modifies `readyList, tasks`next, tasks`prev
      ensures Listed(q + [task], d)
    {
      hide NoDup, ReadyLinks;
      Halves(q, d, task);
      Append(task, q);
    }

    lemma Halves(q: seq<Task>, d: seq<Task>, t: Task)
      requires NoDup(q + d) && t !in q && t !in d
      ensures NoDup(q) && forall u :: u in q ==> u !in d
    {
      forall i, j | 0 <= i < j < |q| ensures q[i] != q[j] { assert (q + d)[i] != (q + d)[j]; }
      forall i, j | 0 <= i < |q| && 0 <= j < |d| ensures q[i] != d[j] { assert (q + d)[i] != (q + d)[|q| + j]; }
    }

    /** The timer half of push_ready. */
    method Untime(task: Task, ghost q: seq<Timer>)
      requires TimersAre(q) && task in tasks && Unique(q) && timers.sentinel !in tasks
      modifies timers, timers.sentinel, tasks`left, tasks`right, tasks`parent, tasks`color, tasks`key
      ensures TimersAre(Removed(q, task))
    {
      hide Unique, Removed, TimedTasks, RbTree.Valid, RbTree.Timers;
      RemovedUnique(q, task);
      if task.key.Some? {
        timers.Delete(task);
        task.key := None;
      } else {
        RemovedAbsent(q, task);
      }
    }

    method SetErr(task: Task, err: Errno, ghost m: map<Task, Info>)
      requires DataAre(m) && task in m
      modifies task`err
      ensures DataAre(m[task := m[task].(err := err)])
    {
      task.err := err;
    }

    /** `s` with `t` queued, but still in the timer tree if it was there. */
    ghost function Enqueued(s: State, t: Task, err: Errno): State
      requires t in s.info
    {
      s.(ready := s.ready + [t], pushed := s.pushed + [t], info := s.info[t := s.info[t].(err := err)])
    }

    method Enqueue(task: Task, err: Errno, ghost s: State)
      requires Holds(s) && task in tasks && !s.Queued(task) && NoDup(s.ready + s.detached)
      modifies `readyList, tasks`next, tasks`prev, task`err
      ensures task in s.info && Holds(Enqueued(s, task, err))
    {
      hide Listed, TimersAre, NoDup, TimedTasks, DataAre;
      Marks(s, task);
      Queue(task, s.ready, s.detached);
      SetErr(task, err, s.info);
    }

    method Dequeue(task: Task, ghost s: State)
      requires Holds(s) && task in tasks && Unique(s.timers)
      modifies timers, timers.sentinel, tasks`left, tasks`right, tasks`parent, tasks`color, tasks`key
      ensures Holds(s.(timers := Removed(s.timers, task)))
    {
      hide Listed, TimersAre, Unique, Removed, DataAre, TimedTasks;
      Untime(task, s.timers);
    }

    lemma PushParts(s: State, t: Task, err: Errno)
      requires t in s.info
      ensures SchedModel.PushReady(s, t, err) ==
        if s.Queued(t) then s else Enqueued(s, t, err).(timers := Removed(s.timers, t))
    {
    }

    lemma Lists(s: State)
      requires Places(s)
      ensures NoDup(s.ready + s.detached) && Unique(s.timers)
    {
    }

    lemma Marks(s: State, t: Task)
      requires Holds(s) && t in tasks
      ensures t in s.info && s.info.Keys == tasks && s.info[t] == Data(t)
      ensures t.prev != null <==> s.Queued(t)
      ensures t.key.Some? <==> s.Timed(t)
    {
    }

    method PushReady(task: Task, err: Errno)
      requires Holds(st) && task in tasks && Places(st)
      modifies `readyList, `st, timers, timers.sentinel, tasks`left, tasks`right, tasks`parent, tasks`color, tasks`key, tasks`prev, tasks`next, tasks`err
      ensures Holds(st) && task in old(st).info && st == SchedModel.PushReady(old(st), task, err)
    {
      hide Holds, Places, NoDup, Unique, Removed, SchedModel.PushReady;
      ghost var s := st;
      Lists(s);
      Marks(s, task);
      PushParts(s, task, err);
      if task.prev != null {
        return;
      }
      Enqueue(task, err, s);
      Dequeue(task, Enqueued(s, task, err));
      st := SchedModel.PushReady(s, task, err);
    }

    // ---------- changes of single fields ----------

    method SetSig(task: Task, sig: bool, ghost m: map<Task, Info>)
      requires DataAre(m) && task in m
      modifies task`sig
      ensures DataAre(m[task := m[task].(sig := sig)])
    {
      task.sig := sig;
    }

    method SetNsubs(task: Task, nsubs: int, ghost m: map<Task, Info>)
      requires DataAre(m) && task in m
      modifies task`nsubs
      ensures DataAre(m[task := m[task].(nsubs := nsubs)])
    {
      task.nsubs := nsubs;
    }

    method SetFrame(task: Task, frame: Option<Frame>, ghost m: map<Task, Info>)
      requires DataAre(m) && task in m
      modifies task`frame
      ensures DataAre(m[task := m[task].(frame := frame)])
    {
      task.frame := frame;
    }

    /** The table after the death of a task. */
    ghost function CountedOff(m: map<Task, Info>, t: Task): map<Task, Info>
      requires t in m
    {
      var dead := m[t := m[t].(alive := false)];
      if m[t].super.Some? && m[t].super.value in m then
        var p := m[t].super.value;
        var n := dead[p].nsubs;
        dead[p := dead[p].(nsubs := if n < 0 then n + 1 else n - 1)]
      else dead
    }

    /** The locals of do_yield are gone, and join_tasks restores a count that is still negative. */
    method Restore(task: Task, ghost m: map<Task, Info>)
      requires DataAre(m) && task in m && task.frame.Some?
      modifies task`frame, task`nsubs
      ensures DataAre(m[task := Restored(m[task])])
    {
      if task.frame.value.wait.InJoin? && task.nsubs < 0 {
        task.nsubs := -task.nsubs;
      }
      task.frame := None;
    }

    ghost function Restored(i: Info): Info
      requires i.frame.Some?
    {
      i.(frame := None, nsubs := if i.frame.value.wait.InJoin? && i.nsubs < 0 then -i.nsubs else i.nsubs)
    }

    // ---------- blocking ----------

    method Time(task: Task, deadline: real, ghost q: seq<Timer>)
      requires TimersAre(q) && task in tasks && task !in TimedTasks(q) && timers.sentinel !in tasks
      modifies timers, tasks`left, tasks`right, tasks`parent, tasks`color, task`key
      ensures TimersAre(Inserted(q, Timer(task, deadline)))
    {
      hide Inserted, TimedTasks, RbTree.Valid, RbTree.Timers;
      InsertedTasks(q, Timer(task, deadline));
      task.key := Some(deadline);
      timers.Insert(task);
    }

    lemma SuspendParts(s: State, t: Task, f: Frame)
      requires t in s.info
      ensures SchedModel.Suspend(s, t, f) == s.(control := Idle, info := s.info[t := s.info[t].(frame := Some(f))],
        timers := if f.sec > 0.0 then Inserted(s.timers, Timer(t, f.base + f.sec)) else s.timers)
    {
      hide Inserted;
    }

    method TimeOut(task: Task, f: Frame, ghost q: seq<Timer>)
      requires TimersAre(q) && task in tasks && task !in TimedTasks(q) && timers.sentinel !in tasks
      modifies timers, tasks`left, tasks`right, tasks`parent, tasks`color, task`key
      ensures TimersAre(if f.sec > 0.0 then Inserted(q, Timer(task, f.base + f.sec)) else q)
    {
      hide TimersAre, Inserted, TimedTasks;
      if f.sec > 0.0 {
        Time(task, f.base + f.sec, q);
      }
    }

    method Park(task: Task, f: Frame, ghost q: seq<Task>, ghost d: seq<Task>, ghost timed: seq<Timer>, ghost m: map<Task, Info>)
      requires Listed(q, d) && TimersAre(timed) && DataAre(m) && task in m
      requires task in tasks && task !in TimedTasks(timed) && timers.sentinel !in tasks
      modifies timers, tasks`left, tasks`right, tasks`parent, tasks`color, task`key, task`frame
      ensures Listed(q, d) && DataAre(m[task := m[task].(frame := Some(f))])
      ensures TimersAre(if f.sec > 0.0 then Inserted(timed, Timer(task, f.base + f.sec)) else timed)
    {
      hide Listed, TimersAre, Inserted, DataAre, TimedTasks;
      TimeOut(task, f, timed);
      SetFrame(task, Some(f), m);
    }

    /** The task goes into the timer tree if it waits with a time-out, and gives up control. */
    method Suspend(task: Task, f: Frame, ghost s: State)
      requires Holds(s) && task in tasks && task !in TimedTasks(s.timers)
      modifies `current, `handling, timers, tasks`left, tasks`right, tasks`parent, tasks`color, task`key, task`frame
      ensures task in s.info && Holds(SchedModel.Suspend(s, task, f))
    {
      hide Holds, Listed, TimersAre, Inserted, DataAre, TimedTasks, SchedModel.Suspend, ControlIs;
      Keys(s);
      Parts(s);
      SuspendParts(s, task, f);
      Park(task, f, s.ready, s.detached, s.timers, s.info);
      Yielded();
      Whole(SchedModel.Suspend(s, task, f));
    }

    /** The first half of do_yield; false if it raises an error instead of blocking. */
    method Block(sec: Option<real>, acceptEintr: bool, wait: Wait) returns (blocked: bool)
      requires Valid() && st.control.Running? && !wait.InJoin?
      modifies `current, `handling, `st, timers, tasks`left, tasks`right, tasks`parent, tasks`color, tasks`key, tasks`frame
      ensures Valid() && st == Yield(old(st), sec, acceptEintr, wait)
      ensures blocked <==> st.control.Idle?
      ensures blocked ==> WaitsFor(st, old(st).control.task, old(st).now, sec)
    {
      hide Holds, Inv, SchedModel.Suspend, WaitsFor;
      ghost var s := st;
      InControl(s);
      YieldInv(s, sec, acceptEintr, wait);
      if current.sig {
        return false;
      }
      var t := Limit(sec);
      Clock(s);
      Suspend(current, Frame(now, t, acceptEintr, wait), s);
      st := Yield(s, sec, acceptEintr, wait);
      SuspendIdle(s, s.control.task, Frame(s.now, t, acceptEintr, wait));
      BlockWaits(s, DoYield(sec, acceptEintr, wait), sec);
      blocked := true;
    }

    /** The time-out as do_yield takes it. */
    method Limit(sec: Option<real>) returns (t: real)
      ensures t == Seconds(sec)
    {
      t := -1.0;
      if sec.Some? && sec.value >= 0.0 {
        t := sec.value;
        if t < 0.001 {
          t := 0.001;
        }
      }
    }

    lemma SuspendIdle(s: State, t: Task, f: Frame)
      requires t in s.info
      ensures SchedModel.Suspend(s, t, f).control.Idle?
    {
    }

    lemma JoinIdle(s: State, sec: Option<real>)
      requires s.control.Running? && s.control.task in s.info && s.info[s.control.task].nsubs > 0 && !s.info[s.control.task].sig
      ensures SchedModel.Join(s, sec).control.Idle?
    {
    }

    /** The task in control, as the object knows it. */
    lemma InControl(s: State)
      requires Holds(s) && Inv(s) && !s.control.Idle?
      ensures current == s.control.task && current in tasks && current in s.info && current !in TimedTasks(s.timers)
      ensures s.info.Keys == tasks && s.info[current] == Data(current) && s.Alive(current) && !s.Queued(current)
      ensures handling <==> s.control.Handling?
    {
      hide NoDup, Sorted, Unique, Waits, Accounts, Fifo, JoinsHonest;
      assert current !in s.ready + s.detached;
    }

    lemma Clock(s: State)
      requires Holds(s)
      ensures now == s.now
    {
    }

    /** join_tasks up to the point where it blocks; without children it does not. */
    method Join(sec: Option<real>) returns (blocked: bool)
      requires Valid() && st.control.Running? && Legal(st, DoJoin(sec))
      modifies `current, `handling, `st, timers, tasks`left, tasks`right, tasks`parent, tasks`color, tasks`key, tasks`frame, tasks`nsubs
      ensures Valid() && st == SchedModel.Join(old(st), sec)
      ensures old(st).control.task in old(st).info && (blocked <==> old(st).info[old(st).control.task].nsubs > 0)
      ensures blocked ==> st.control.Idle? && WaitsFor(st, old(st).control.task, old(st).now, sec)
    {
      hide Holds, Inv, SchedModel.Suspend, WaitsFor;
      ghost var s := st;
      InControl(s);
      JoinInv(s, sec);
      var nsubs := current.nsubs;
      blocked := nsubs > 0;
      Clock(s);
      if nsubs > 0 {
        Negate(current, s);
        var t := Limit(sec);
        Suspend(current, Frame(now, t, false, InJoin), s.(info := s.info[current := s.info[current].(nsubs := -s.info[current].nsubs)]));
        st := SchedModel.Join(s, sec);
        JoinIdle(s, sec);
        BlockWaits(s, DoJoin(sec), sec);
      }
    }

    /** join_tasks marks the count of a task as awaited, or restores it. */
    method Negate(task: Task, ghost s: State)
      requires Holds(s) && task in tasks
      modifies task`nsubs
      ensures task in s.info && Holds(s.(info := s.info[task := s.info[task].(nsubs := -s.info[task].nsubs)]))
    {
      hide Listed, TimersAre, DataAre, TimedTasks;
      Marks(s, task);
      SetNsubs(task, -task.nsubs, s.info);
    }

    // ---------- resuming ----------

    /** do_yield returns to the code of the task. */
    method Return(task: Task, err: Errno, ghost s: State) returns (answer: Errno)
      requires Holds(s) && task in tasks && task in s.info && s.info[task].frame.Some?
      modifies `current, `handling, task`frame, task`nsubs
      ensures Holds(Returning(s, task, err)) && answer == err
      ensures Told(s.answers, Returning(s, task, err).answers, Some(answer))
    {
      hide Listed, TimersAre, DataAre, TimedTasks, Told;
      Keys(s);
      AnswerGiven(s, task, err);
      Restore(task, s.info);
      current, handling := task, false;
      answer := err;
    }

    lemma AnswerGiven(s: State, t: Task, err: Errno)
      requires t in s.info && s.info[t].frame.Some?
      ensures Told(s.answers, Returning(s, t, err).answers, Some(err))
    {
    }

    /** do_resume up to the point where the coroutine has control: its own code, which is given what its do_yield
      returns, or its signal handler. */
    method Switch(task: Task, ghost s: State) returns (answer: Option<Errno>)
      requires Holds(s) && task in tasks && task in s.info
      modifies `current, `handling, task`frame, task`nsubs, task`sig
      ensures Holds(Resume(s, task)) && Told(s.answers, Resume(s, task).answers, answer)
    {
      hide Listed, TimersAre, DataAre, TimedTasks, Returning;
      Marks(s, task);
      answer := None;
      if task.frame.None? {
        current, handling := task, false;
      } else if task.sig {
        SetSig(task, false, s.info);
        current, handling := task, true;
      } else {
        var err := Return(task, task.err, s);
        answer := Some(err);
      }
    }

    /** The second half of do_yield, once the signal handler is done. */
    method HandlerDone() returns (answer: Option<Errno>)
      requires Valid() && st.control.Handling?
      modifies `current, `handling, `st, timers, tasks`left, tasks`right, tasks`parent, tasks`color, tasks`key, tasks`frame, tasks`nsubs
      ensures Valid() && st == EndHandler(old(st)) && tasks == old(tasks)
      ensures Told(old(st).answers, st.answers, answer)
    {
      hide Holds, Inv, SchedModel.Suspend, Returning;
      ghost var s := st;
      InControl(s);
      InFrame(s);
      EndHandlerInv(s);
      Clock(s);
      var f := current.frame.value;
      if f.acceptEintr {
        var err := Return(current, EINTR, s);
        answer := Some(err);
      } else if f.sec > 0.0 && now - f.base >= f.sec {
        var err := Return(current, ETIMEDOUT, s);
        answer := Some(err);
      } else {
        SuspendSilent(s, current, f);
        Suspend(current, f, s);
        answer := None;
      }
      st := EndHandler(s);
    }

    lemma SuspendSilent(s: State, t: Task, f: Frame)
      requires t in s.info
      ensures SchedModel.Suspend(s, t, f).answers == s.answers
    {
    }

    lemma InFrame(s: State)
      requires Inv(s) && s.control.Handling?
      ensures s.control.task in s.info && s.info[s.control.task].frame.Some?
    {
      assert WaitsWell(s, s.control.task);
    }

    // ---------- starting, killing, dying ----------

    /** A table that is filled in becomes one of the tasks. */
    method Admit(task: Task, ghost m: map<Task, Info>, ghost q: seq<Task>, ghost d: seq<Task>, ghost timed: seq<Timer>)
      requires task !in tasks && task.prev == null && task.key.None?
      requires Listed(q, d) && DataAre(m) && TimersAre(timed)
      modifies `tasks
      ensures tasks == old(tasks) + {task}
      ensures Listed(q, d) && TimersAre(timed) && DataAre(m[task := Data(task)])
    {
      hide RbTree.Is, TimedTasks;
      tasks := tasks + {task};
    }

    /** The table of a new task is filled in, and its parent counts it. */
    method Enter(task: Task, joinable: bool, ghost s: State)
      requires Holds(s) && task !in tasks && task != timers.sentinel && task.key.None?
      requires s.control.Idle? || s.control.task in tasks
      modifies `tasks, task, tasks`nsubs
      ensures task !in s.info && Holds(Entered(s, task, joinable)) && tasks == old(tasks) + {task}
    {
      hide Listed, TimersAre, TimedTasks, DataAre;
      Keys(s);
      ghost var m := s.info;
      var parent := null;
      if joinable && current != null {
        parent := current;
        SetNsubs(current, current.nsubs + 1, s.info);
        m := m[current := m[current].(nsubs := m[current].nsubs + 1)];
      }
      Blank(task, parent);
      Admit(task, m, s.ready, s.detached, s.timers);
    }

    /** The table of a new task. */
    method Blank(task: Task, parent: Task?)
      modifies task`err, task`alive, task`sig, task`nsubs, task`super, task`frame, task`prev, task`next
      ensures task.prev == null && Data(task) == Info(true, false, Ok, 0, if parent == null then None else Some(parent), None)
    {
      task.super := parent;
      task.nsubs := 0;
      task.alive := true;
      task.prev := null;
      task.next := null;
      task.sig := false;
      task.frame := None;
      task.err := Ok;
    }

    lemma Keys(s: State)
      requires Holds(s)
      ensures s.info.Keys == tasks && forall t :: t in tasks ==> s.info[t] == Data(t)
      ensures s.control.Idle? <==> current == null
      ensures !s.control.Idle? ==> current == s.control.task && (handling <==> s.control.Handling?)
    {
    }

    /** start_task. */
    method StartTask(task: Task, joinable: bool)
      requires Valid() && Legal(st, DoStart(task, joinable))
      requires task !in tasks && task != timers.sentinel && task.key.None?
      modifies `readyList, `st, `tasks, timers, timers.sentinel, task, tasks`left, tasks`right, tasks`parent, tasks`color, tasks`key
      modifies tasks`prev, tasks`next, tasks`err, tasks`nsubs
      ensures Valid() && st == Start(old(st), task, joinable) && tasks == old(tasks) + {task}
    {
      hide Holds, Inv, SchedModel.PushReady;
      ghost var s := st;
      StartInv(s, task, joinable);
      Keys(s);
      StartReady(s, task, joinable);
      Enter(task, joinable, s);
      st := Entered(s, task, joinable);
      PushReady(task, Ok);
    }

    lemma StartReady(s: State, t: Task, joinable: bool)
      requires Inv(s) && t !in s.info
      ensures Places(Entered(s, t, joinable)) && Start(s, t, joinable) == SchedModel.PushReady(Entered(s, t, joinable), t, Ok)
      ensures !s.control.Idle? ==> s.control.task in s.info
    {
      hide NoDup, Sorted, Unique, Waits, Accounts, Fifo, JoinsHonest, SchedModel.PushReady;
    }

    /** A channel or a service wakes a task that is suspended in it. */
    method WakeTask(task: Task, err: Errno)
      requires Valid() && task in tasks && st.Alive(task) && !st.Current(task) && !st.Joining(task)
      modifies `readyList, `st, timers, timers.sentinel, tasks`left, tasks`right, tasks`parent, tasks`color, tasks`key, tasks`prev, tasks`next, tasks`err
      ensures Valid() && st == Wake(old(st), task, err)
    {
      hide Holds, Inv, SchedModel.PushReady;
      ghost var s := st;
      WakeInv(s, task, err);
      InPlaces(s);
      PushReady(task, err);
    }

    lemma InPlaces(s: State)
      requires Inv(s)
      ensures Places(s)
    {
    }

    /** kill_task, for another task than the current one. */
    method KillTask(task: Task)
      requires Valid() && task in tasks
      modifies `readyList, `st, timers, timers.sentinel, tasks`left, tasks`right, tasks`parent, tasks`color, tasks`key, tasks`prev, tasks`next, tasks`err, tasks`sig
      ensures Valid() && st == Kill(old(st), task)
    {
      hide Holds, Inv, SchedModel.PushReady;
      ghost var s := st;
      KillInv(s, task);
      Keys(s);
      if task.alive {
        if task != current {
          Mark(task, s);
          MarkedInv(s, task);
          InPlaces(Marked(s, task));
          st := Marked(s, task);
          PushReady(task, Ok);
        }
      }
    }

    method Mark(task: Task, ghost s: State)
      requires Holds(s) && task in tasks
      modifies task`sig
      ensures task in s.info && Holds(Marked(s, task))
    {
      hide Listed, TimersAre, DataAre, TimedTasks;
      Keys(s);
      SetSig(task, true, s.info);
    }

    /** The task is dead; its parent counts it off, and is returned if it was the last child waited for. */
    method Bury(task: Task, ghost s: State) returns (joined: Task?)
      requires Holds(s) && task in tasks
      requires task.super != null ==> task.super in tasks && task.super != task
      modifies `current, `handling, tasks`alive, tasks`nsubs
      ensures task in s.info && Holds(Buried(s, task))
      ensures joined == if task.super != null && old(task.super.nsubs) == -1 then task.super else null
    {
      hide Holds, Listed, TimersAre, DataAre, TimedTasks, Buried, CountedOff, ControlIs, Data, QueuedAre, TimedAre;
      Keys(s);
      Parts(s);
      joined := CountOff(task, s.info);
      BuriedParts(s, task);
      Yielded();
      Whole(Buried(s, task));
    }

    method Yielded()
      modifies `current, `handling
      ensures ControlIs(Idle)
    {
      current, handling := null, false;
    }

    lemma BuriedParts(s: State, t: Task)
      requires t in s.info
      ensures Buried(s, t) == s.(control := Idle, info := CountedOff(s.info, t))
    {
    }

    lemma Parts(s: State)
      requires Holds(s)
      ensures now == s.now && timers.sentinel !in tasks
      ensures ControlIs(s.control) && Listed(s.ready, s.detached) && TimersAre(s.timers) && DataAre(s.info)
    {
    }

    lemma Whole(s: State)
      requires now == s.now && timers.sentinel !in tasks
      requires ControlIs(s.control) && Listed(s.ready, s.detached) && TimersAre(s.timers) && DataAre(s.info)
      ensures Holds(s)
    {
    }

    method CountOff(task: Task, ghost m: map<Task, Info>) returns (joined: Task?)
      requires DataAre(m) && task in m
      requires task.super != null ==> task.super in m && task.super != task
      modifies task`alive, tasks`nsubs
      ensures DataAre(CountedOff(m, task))
      ensures joined == if task.super != null && old(task.super.nsubs) == -1 then task.super else null
    {
      joined := null;
      task.alive := false;
      var parent := task.super;
      if parent != null {
        var nsubs := parent.nsubs;
        if nsubs < 0 {
          nsubs := nsubs + 1;
          parent.nsubs := nsubs;
          if nsubs == 0 {
            joined := parent;
          }
        } else {
          nsubs := nsubs - 1;
          parent.nsubs := nsubs;
        }
      }
    }

    /** The end of do_resume: the coroutine is dead. */
    method Finish()
      requires Valid() && st.control.Running?
      modifies `current, `handling, `readyList, `st, timers, timers.sentinel, tasks`left, tasks`right, tasks`parent, tasks`color, tasks`key
      modifies tasks`prev, tasks`next, tasks`err, tasks`alive, tasks`nsubs
      ensures Valid() && st == Die(old(st))
    {
      hide Holds, Inv, SchedModel.PushReady, Buried;
      ghost var s := st;
      DieInv(s);
      InControl(s);
      Keys(s);
      DeadParent(s, current);
      ghost var task := current;
      var parent := Bury(current, s);
      st := Buried(s, task);
      if parent != null {
        PushReady(parent, Ok);
      }
    }

    lemma DeadParent(s: State, t: Task)
      requires Inv(s) && s.control == Running(t)
      ensures t in s.info && Places(Buried(s, t))
      ensures s.info[t].super.Some? ==> s.info[t].super.value in s.info && s.info[t].super.value != t
      ensures Die(s) ==
        if s.info[t].super.Some? && s.info[s.info[t].super.value].nsubs == -1
        then SchedModel.PushReady(Buried(s, t), s.info[t].super.value, Ok) else Buried(s, t)
    {
      hide NoDup, Sorted, Unique, Waits, Fifo, JoinsHonest, SchedModel.PushReady;
      BuriedPlaces(s, t);
      assert Counted(s, t);
    }

    // ---------- draining the ready list ----------

    /** resume_list takes the ready list off. */
    method TakeReady()
      requires Valid() && st.control.Idle? && st.detached == []
      modifies `readyList, `draining, `st
      ensures Valid() && st == TakeList(old(st))
    {
      hide Listed, TimersAre, Inv, DataAre, TimedTasks;
      TakeListInv(st);
      Detach(st.ready);
      st := TakeList(st);
    }

    method Detach(ghost q: seq<Task>)
      requires Listed(q, [])
      modifies `readyList, `draining
      ensures Listed([], q)
    {
      draining := readyList;
      readyList := null;
    }

    method Unlink(ghost q: seq<Task>, ghost d: seq<Task>) returns (task: Task)
      requires Listed(q, d) && d != [] && NoDup(q + d)
      modifies `draining, tasks`prev
      ensures task == d[0] && task in tasks
      ensures Listed(q, d[1..])
    {
      DropNoDup(q, d);
      task := draining;
      draining := task.next;
      task.prev := null;
    }

    /** The body of the inner loop of resume_list. */
    method ResumeFirst() returns (answer: Option<Errno>)
      requires Valid() && st.control.Idle? && st.detached != []
      modifies `current, `handling, `draining, `st, tasks`prev, tasks`frame, tasks`nsubs, tasks`sig
      ensures Valid() && st == ResumeNext(old(st)) && st.Current(old(st).detached[0])
      ensures Told(old(st).answers, st.answers, answer)
    {
      hide Holds, Inv, Resume;
      ghost var s := st;
      ResumeNextInv(s);
      FirstQueued(s);
      var task := UnlinkFirst(s);
      answer := Switch(task, Taken(s));
      st := ResumeNext(s);
      ResumeCurrent(Taken(s), task);
    }

    lemma ResumeCurrent(s: State, t: Task)
      requires t in s.info
      ensures Resume(s, t).Current(t)
    {
    }

    method UnlinkFirst(ghost s: State) returns (task: Task)
      requires Holds(s) && s.detached != [] && NoDup(s.ready + s.detached)
      modifies `draining, tasks`prev
      ensures task == s.detached[0] && task in tasks && Holds(Taken(s))
    {
      hide Listed, TimersAre, NoDup, DataAre, TimedTasks;
      task := Unlink(s.ready, s.detached);
    }

    lemma FirstQueued(s: State)
      requires Holds(s) && Inv(s) && s.detached != []
      ensures NoDup(s.ready + s.detached) && s.detached[0] in tasks && s.detached[0] in s.info
    {
      hide RbTree.Is, NoDup, Sorted, Unique, Waits, Accounts, Fifo, JoinsHonest;
      assert s.detached[0] in s.ready + s.detached;
    }

    // ---------- firing timers ----------

    /** The body of the loop of resume_timedout; false if no timer is due. */
    method FireNext() returns (fired: bool, answer: Option<Errno>)
      requires Valid() && st.control.Idle? && st.detached == []
      modifies `current, `handling, `st, timers, timers.sentinel, tasks`left, tasks`right, tasks`parent, tasks`color, tasks`key, tasks`err, tasks`frame, tasks`nsubs, tasks`sig
      ensures Valid() && st == SchedModel.Fire(old(st))
      ensures fired <==> old(st).timers != [] && old(st).timers[0].deadline <= now
      ensures fired ==> st.Current(old(st).timers[0].task)
      ensures !fired ==> st == old(st)
      ensures Told(old(st).answers, st.answers, answer)
    {
      hide Holds, Inv, Resume;
      ghost var s := st;
      FireInv(s);
      Clock(s);
      var task := Nearest(s);
      if task == null || task.key.value > now {
        return false, None;
      }
      FirstTimed(s);
      Expire(task, s);
      answer := Switch(task, Fired(s));
      st := SchedModel.Fire(s);
      ResumeCurrent(Fired(s), task);
      fired := true;
    }

    method Nearest(ghost s: State) returns (task: Task?)
      requires Holds(s)
      ensures s.timers == [] <==> task == null
      ensures task != null ==> task in tasks && task.key.Some? && s.timers[0] == Timer(task, task.key.value)
    {
      hide Listed, RbTree.Valid, RbTree.Timers, DataAre;
      task := timers.Min();
    }

    /** The first timer leaves the tree. */
    method Expire(task: Task, ghost s: State)
      requires Holds(s) && s.timers != [] && s.timers[0].task == task && task in tasks && task.key.Some? && Unique(s.timers)
      modifies timers, timers.sentinel, tasks`left, tasks`right, tasks`parent, tasks`color, tasks`key, task`err
      ensures task in s.info && Holds(Fired(s))
    {
      hide Listed, TimersAre, Unique, Removed, DataAre, TimedTasks;
      Keys(s);
      assert Removed(s.timers, task) == s.timers[1..] by { RemovedFirst(s.timers); }
      Untime(task, s.timers);
      SetErr(task, ETIMEDOUT, s.info);
    }

    lemma RemovedFirst(q: seq<Timer>)
      requires q != []
      ensures Removed(q, q[0].task) == q[1..]
    {
    }

    lemma FirstTimed(s: State)
      requires Holds(s) && Inv(s) && s.timers != []
      ensures Unique(s.timers) && s.timers[0].task in tasks && s.timers[0].task in s.info
    {
      hide RbTree.Is, NoDup, Sorted, Unique, Waits, Accounts, Fifo, JoinsHonest;
      assert s.timers[0].task in TimedTasks(s.timers);
    }

    // ---------- a pass of the event loop ----------

    /** Any one step the code of the current task could take; none if it cannot take the one chosen. */
    method AnyStep() returns (ghost a: Option<Step>)
      requires Valid() && !st.control.Idle?
      modifies this, timers, timers.sentinel, tasks
      ensures Valid() && fresh(tasks - old(tasks))
      ensures a.Some? ==> Legal(old(st), a.value) && st == Apply(old(st), a.value)
      ensures a.Some? ==> !a.value.DoTick? && !a.value.DoTakeList? && !a.value.DoResumeNext?
      ensures a.None? ==> st == old(st)
    {
      hide Holds, Inv, Start, Wake, Kill, Yield, SchedModel.Join;
      InControl(st);
      Keys(st);
      a := None;
      var joinable: bool := *;
      var sec: Option<real> := *;
      if * {
        if !joinable || !handling || current.frame.None? || !current.frame.value.wait.InJoin? {
          var task := new Task();
          StartTask(task, joinable);
          a := Some(DoStart(task, joinable));
        }
      } else if * {
        var task :| task in tasks;
        var err: Errno := *;
        if task != current && task.alive && (task.frame.None? || !task.frame.value.wait.InJoin?) {
          WakeTask(task, err);
          a := Some(DoWake(task, err));
        }
      } else if * {
        var task :| task in tasks;
        KillTask(task);
        a := Some(DoKill(task));
      } else if !handling {
        if * {
          var accept: bool := *;
          var wait: Wait := *;
          if !wait.InJoin? {
            var _ := Block(sec, accept, wait);
            a := Some(DoYield(sec, accept, wait));
          }
        } else if !current.sig {
          var _ := Join(sec);
          a := Some(DoJoin(sec));
        }
      }
    }

    /** The code of the current task runs until it suspends or dies. */
    method RunCoroutine() returns (ghost done: seq<Step>)
      requires Valid() && !st.control.Idle?
      modifies this, timers, timers.sentinel, tasks
      ensures Valid() && fresh(tasks - old(tasks))
      ensures st.control.Idle? && Ran(old(st), done, st)
    {
      hide Holds, Inv, Ran, Apply;
      done := [];
      RanNothing(st);
      Keys(st);
      var n: nat := *;
      while n > 0 && current != null
        invariant Valid() && fresh(tasks - old(tasks)) && Ran(old(st), done, st)
        invariant st.control.Idle? <==> current == null
      {
        ghost var s := st;
        var a := AnyStep();
        if a.Some? {
          RanStep(old(st), done, s, a.value);
          done := done + [a.value];
        }
        Keys(st);
        n := n - 1;
      }
      ghost var s := st;
      ghost var last := EndCoroutine();
      if last != [] {
        assert last[0] in last;
        RanStep(old(st), done, s, last[0]);
        done := done + [last[0]];
      }
      if |last| == 2 {
        assert last[1] in last;
        RanStep(old(st), done, Apply(s, last[0]), last[1]);
        done := done + [last[1]];
      }
    }

    /** The signal handler returns, if the task is in it, and the code of the task comes to its end. */
    method EndCoroutine() returns (ghost last: seq<Step>)
      requires Valid()
      modifies this, timers, timers.sentinel, tasks
      ensures Valid() && tasks == old(tasks) && st.control.Idle?
      ensures |last| <= 2 && forall a :: a in last ==> a.DoEndHandler? || a.DoDie?
      ensures st == (match |last| case 0 => old(st) case 1 => Apply(old(st), last[0]) case _ => Apply(Apply(old(st), last[0]), last[1]))
    {
      hide Holds, Inv, EndHandler, Die;
      last := [];
      Keys(st);
      if current != null && handling {
        HandlerOver(st);
        var _ := HandlerDone();
        last := [DoEndHandler];
      }
      Keys(st);
      if current != null {
        TaskOver(st);
        Finish();
        last := last + [DoDie];
      }
    }

    lemma HandlerOver(s: State)
      requires Inv(s) && s.control.Handling?
      ensures !EndHandler(s).control.Handling?
    {
    }

    lemma TaskOver(s: State)
      requires Inv(s) && s.control.Running?
      ensures Die(s).control.Idle?
    {
    }

    /** The timer loop of resume_timedout, whatever the resumed tasks do. */
    method ResumeTimedout() returns (ghost steps: seq<Step>, ghost gone: set<Task>)
      requires Valid() && st.control.Idle? && st.detached == []
      modifies this, timers, timers.sentinel, tasks
      ensures Valid() && fresh(tasks - old(tasks)) && st.control.Idle? && Ran(old(st), steps, st)
      ensures st.now == old(st.now) && Due(st.timers, st.now) == []
      ensures st.fired == old(st.fired) + Without(Due(old(st).timers, old(st).now), gone)
      ensures old(st).pushed <= st.pushed && forall t :: t in gone ==> t in st.pushed[|old(st).pushed|..]
    {
      hide Holds, Inv, SchedModel.Fire, Run, LegalRun, Still, Without;
      steps := [];
      RanNothing(st);
      while true
        invariant Valid() && fresh(tasks - old(tasks)) && st.control.Idle? && Ran(old(st), steps, st)
        decreases |SchedTheorems.Due(st.timers, st.now)|
      {
        ghost var s := st;
        Clock(s);
        var fired, _ := FireNext();
        if !fired {
          break;
        }
        FiresOne(s);
        RanStep(old(st), steps, s, DoFire);
        steps := steps + [DoFire];
        ghost var s1 := st;
        ghost var done := RunCoroutine();
        WentOn(old(st), steps, s1, done, st);
        WentDue(s1, done, st);
        steps := steps + done;
      }
      WentDue(old(st), steps, st);
      gone := FirePass(old(st), steps);
    }

    lemma FiresOne(s: State)
      requires Inv(s) && s.control.Idle? && s.detached == [] && s.timers != [] && s.timers[0].deadline <= s.now
      ensures SchedModel.Fire(s).now == s.now
      ensures |SchedTheorems.Due(SchedModel.Fire(s).timers, s.now)| < |SchedTheorems.Due(s.timers, s.now)|
    {
      assert s.timers[0].task in TimedTasks(s.timers);
      FireDue(s);
    }

    /** resume_list, for at most `rounds` generations of the ready list, whatever the resumed tasks do;
      the tasks that were ready at the call are all resumed, in their order. */
    method ResumeList(rounds: nat) returns (ghost steps: seq<Step>, drained: bool)
      requires Valid() && st.control.Idle? && st.detached == []
      modifies this, timers, timers.sentinel, tasks
      ensures Valid() && fresh(tasks - old(tasks)) && st.control.Idle? && Went(old(st), steps, st)
      ensures rounds > 0 ==> old(st).pushed <= st.resumed
      ensures drained ==> st.resumed == st.pushed
    {
      hide Holds, Inv, Run, LegalRun, Still, TakeList;
      TakeReady();
      steps := [DoTakeList];
      WentStep(old(st), DoTakeList);
      TakenUp(old(st));
      Heads(st);
      var n := 0;
      while draining != null && n < rounds
        invariant Valid() && fresh(tasks - old(tasks)) && st.control.Idle? && Went(old(st), steps, st)
        invariant draining == null <==> st.detached == []
        invariant st.pushed == st.resumed + st.detached + st.ready
        invariant st.detached == [] ==> st.ready == []
        invariant n == 0 ==> st.resumed + st.detached == old(st).pushed
        invariant n > 0 ==> old(st).pushed <= st.resumed
        invariant n <= rounds
      {
        ghost var s := st;
        ghost var done := Generation();
        WentOn(old(st), steps, s, done, st);
        steps := steps + done;
        s := st;
        TakeReady();
        WentStep(s, DoTakeList);
        WentOn(old(st), steps, s, [DoTakeList], st);
        steps := steps + [DoTakeList];
        TakenUp(s);
        Heads(st);
        n := n + 1;
      }
      drained := draining == null;
    }

    /** The inner loop of resume_list: one generation of the list. */
    method Generation() returns (ghost steps: seq<Step>)
      requires Valid() && st.control.Idle?
      modifies this, timers, timers.sentinel, tasks
      ensures Valid() && fresh(tasks - old(tasks)) && st.control.Idle? && Went(old(st), steps, st)
      ensures st.detached == [] && old(st).resumed + old(st).detached == st.resumed
    {
      hide Holds, Inv, Run, LegalRun, Still, ResumeNext;
      steps := [];
      RanNothing(st);
      Heads(st);
      while draining != null
        invariant Valid() && fresh(tasks - old(tasks)) && st.control.Idle? && Went(old(st), steps, st)
        invariant draining == null <==> st.detached == []
        invariant st.resumed + st.detached == old(st).resumed + old(st).detached
        decreases |st.detached|
      {
        ghost var s := st;
        var _ := ResumeFirst();
        WentStep(s, DoResumeNext);
        WentOn(old(st), steps, s, [DoResumeNext], st);
        steps := steps + [DoResumeNext];
        Resumed(s);
        s := st;
        ghost var done := RunCoroutine();
        WentOn(old(st), steps, s, done, st);
        steps := steps + done;
        Heads(st);
      }
    }

    lemma Resumed(s: State)
      requires Inv(s) && s.control.Idle? && s.detached != []
      ensures ResumeNext(s).detached == s.detached[1..] && ResumeNext(s).resumed == s.resumed + [s.detached[0]]
    {
      assert s.detached[0] in s.ready + s.detached;
    }

    lemma TakenUp(s: State)
      requires Inv(s) && s.control.Idle? && s.detached == []
      ensures TakeList(s).detached == s.ready && TakeList(s).ready == [] && s.pushed == s.resumed + s.ready
      ensures TakeList(s).pushed == s.pushed && TakeList(s).resumed == s.resumed && TakeList(s).control.Idle?
    {
    }

    lemma Heads(s: State)
      requires Holds(s) && Inv(s)
      ensures draining == null <==> s.detached == []
      ensures s.pushed == s.resumed + s.detached + s.ready
    {
    }
  }
}
