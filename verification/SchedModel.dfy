/** The scheduler of tasklet.lua as a state machine.

  A coroutine runs, between two suspensions, a sequence of the steps below; what it does beside them
  does not concern the scheduler.  Every step is total: where the source could not take it, nothing
  happens. */
module SchedModel {
  import opened RbShape
  import opened Tasks
  import opened TimerQueue

  datatype Info = Info(alive: bool, sig: bool, err: Errno, nsubs: int, super: Option<Task>, frame: Option<Frame>)

  /** Who has control: the event loop, a task, or the signal handler of a task. */
  datatype Control = Idle | Running(task: Task) | Handling(task: Task)

  /** A return of do_yield to the code that had blocked, with the children alive at that moment. */
  datatype Return = Return(task: Task, wait: Wait, err: Errno, children: set<Task>)

  datatype State = State(
    now: real,
    control: Control,
    ready: seq<Task>,      // ready_list
    detached: seq<Task>,   // what resume_list has taken off and not yet resumed
    timers: seq<Timer>,
    info: map<Task, Info>,
    pushed: seq<Task>,     // history: every task ever queued, in order
    resumed: seq<Task>,    // history: every queued task ever resumed, in order
    fired: seq<Timer>,     // history: every timer ever fired, in order
    answers: seq<Return>)  // history: every return of do_yield
  {
    ghost predicate Current(t: Task) { !control.Idle? && control.task == t }

    ghost predicate Queued(t: Task) { t in ready || t in detached }

    ghost predicate Alive(t: Task) { t in info && info[t].alive }

    ghost predicate Timed(t: Task) { t in TimedTasks(timers) }

    /** Suspended in join_tasks. */
    ghost predicate Joining(t: Task) { t in info && info[t].frame.Some? && info[t].frame.value.wait.InJoin? }

    /** The live joinable children of `t`. */
    ghost function Children(t: Task): set<Task> { set c | c in info && info[c].alive && info[c].super == Some(t) }
  }

  // ---------- the steps ----------

  ghost function PushReady(s: State, t: Task, err: Errno): State
    requires t in s.info
  {
    if s.Queued(t) then s
    else s.(ready := s.ready + [t], pushed := s.pushed + [t], timers := Removed(s.timers, t),
            info := s.info[t := s.info[t].(err := err)])
  }

  /** A new task, child of the current one if `joinable`. */
  ghost function Start(s: State, t: Task, joinable: bool): State {
    if t in s.info then s
    else
      var child := joinable && !s.control.Idle? && s.control.task in s.info;
      var super := if child then Some(s.control.task) else None;
      var counted := if child then s.info[s.control.task := s.info[s.control.task].(nsubs := s.info[s.control.task].nsubs + 1)] else s.info;
      PushReady(s.(info := counted[t := Info(true, false, Ok, 0, super, None)]), t, Ok)
  }

  /** A wake-up by a channel or a service of a task suspended in it. */
  ghost function Wake(s: State, t: Task, err: Errno): State {
    if s.Alive(t) && !s.Current(t) && !s.Joining(t) then PushReady(s, t, err) else s
  }

  ghost function Kill(s: State, t: Task): State {
    if s.Alive(t) && !s.Current(t) then PushReady(s.(info := s.info[t := s.info[t].(sig := true)]), t, Ok) else s
  }

  /** The current task suspends in do_yield; with a time-out it goes into the timer tree. */
  ghost function Suspend(s: State, t: Task, f: Frame): State
    requires t in s.info
  {
    s.(control := Idle,
       timers := if f.sec > 0.0 then Inserted(s.timers, Timer(t, f.base + f.sec)) else s.timers,
       info := s.info[t := s.info[t].(frame := Some(f))])
  }

  /** The time-out as do_yield takes it. */
  ghost function Seconds(sec: Option<real>): real {
    if sec.Some? && sec.value >= 0.0 then if sec.value < 0.001 then 0.001 else sec.value else -1.0
  }

  /** do_yield; it raises an error in a task that was killed before it first ran. */
  ghost function Yield(s: State, sec: Option<real>, acceptEintr: bool, wait: Wait): State {
    if s.control.Running? && s.control.task in s.info && !wait.InJoin? && !s.info[s.control.task].sig then
      Suspend(s, s.control.task, Frame(s.now, Seconds(sec), acceptEintr, wait))
    else s
  }

  /** join_tasks: without children it returns at once, else it negates the count and blocks. */
  ghost function Join(s: State, sec: Option<real>): State {
    if s.control.Running? && s.control.task in s.info && s.info[s.control.task].nsubs > 0 then
      var t := s.control.task;
      var negated := s.(info := s.info[t := s.info[t].(nsubs := -s.info[t].nsubs)]);
      if s.info[t].sig then negated else Suspend(negated, t, Frame(s.now, Seconds(sec), false, InJoin))
    else s
  }

  /** do_yield returns `err`; join_tasks then restores a count that is still negative. */
  ghost function Returning(s: State, t: Task, err: Errno): State
    requires t in s.info && s.info[t].frame.Some?
  {
    var i := s.info[t];
    var nsubs := if i.frame.value.wait.InJoin? && i.nsubs < 0 then -i.nsubs else i.nsubs;
    s.(control := Running(t), info := s.info[t := i.(frame := None, nsubs := nsubs)],
       answers := s.answers + [Return(t, i.frame.value.wait, err, s.Children(t))])
  }

  /** do_resume up to the point where the coroutine has control. */
  ghost function Resume(s: State, t: Task): State
    requires t in s.info
  {
    var i := s.info[t];
    if i.frame.None? then s.(control := Running(t))
    else if i.sig then s.(control := Handling(t), info := s.info[t := i.(sig := false)])
    else Returning(s, t, i.err)
  }

  /** The signal handler is done: EINTR is returned, or the wait goes on until its old deadline. */
  ghost function EndHandler(s: State): State {
    if s.control.Handling? && s.control.task in s.info && s.info[s.control.task].frame.Some? then
      var t, f := s.control.task, s.info[s.control.task].frame.value;
      if f.acceptEintr then Returning(s, t, EINTR)
      else if f.sec > 0.0 && s.now - f.base >= f.sec then Returning(s, t, ETIMEDOUT)
      else Suspend(s, t, f)
    else s
  }

  /** The current task has died: its parent has one child less, and is woken if it was the last one waited for. */
  ghost function Die(s: State): State {
    if s.control.Running? && s.control.task in s.info then
      var t := s.control.task;
      var dead := s.(control := Idle, info := s.info[t := s.info[t].(alive := false)]);
      if s.info[t].super.Some? && s.info[t].super.value in s.info then
        var p := s.info[t].super.value;
        var n := dead.info[p].nsubs;
        var counted := dead.(info := dead.info[p := dead.info[p].(nsubs := if n < 0 then n + 1 else n - 1)]);
        if n == -1 then PushReady(counted, p, Ok) else counted
      else dead
    else s
  }

  /** resume_list takes the ready list off. */
  ghost function TakeList(s: State): State {
    if s.control.Idle? && s.detached == [] then s.(detached := s.ready, ready := []) else s
  }

  ghost function ResumeNext(s: State): State {
    if s.control.Idle? && s.detached != [] && s.detached[0] in s.info then
      Resume(s.(detached := s.detached[1..], resumed := s.resumed + [s.detached[0]]), s.detached[0])
    else s
  }

  /** One round of the loop of resume_timedout. */
  ghost function Fire(s: State): State {
    if s.control.Idle? && s.detached == [] && s.timers != [] && s.timers[0].deadline <= s.now && s.timers[0].task in s.info then
      var t := s.timers[0].task;
      Resume(s.(timers := s.timers[1..], fired := s.fired + [s.timers[0]], info := s.info[t := s.info[t].(err := ETIMEDOUT)]), t)
    else s
  }

  /** update_time, between two passes of the event loop. */
  ghost function Tick(s: State, now: real): State {
    if s.control.Idle? && s.detached == [] && now >= s.now then s.(now := now) else s
  }

  datatype Step =
    | DoStart(task: Task, joinable: bool)
    | DoWake(task: Task, err: Errno)
    | DoKill(task: Task)
    | DoYield(sec: Option<real>, acceptEintr: bool, wait: Wait)
    | DoJoin(sec: Option<real>)
    | DoEndHandler
    | DoDie
    | DoTakeList
    | DoResumeNext
    | DoFire
    | DoTick(now: real)

  ghost function Apply(s: State, a: Step): State {
    match a
    case DoStart(t, joinable) => Start(s, t, joinable)
    case DoWake(t, err) => Wake(s, t, err)
    case DoKill(t) => Kill(s, t)
    case DoYield(sec, accept, wait) => Yield(s, sec, accept, wait)
    case DoJoin(sec) => Join(s, sec)
    case DoEndHandler => EndHandler(s)
    case DoDie => Die(s)
    case DoTakeList => TakeList(s)
    case DoResumeNext => ResumeNext(s)
    case DoFire => Fire(s)
    case DoTick(now) => Tick(s, now)
  }

  ghost function Run(s: State, steps: seq<Step>): State
    decreases |steps|
  {
    if |steps| == 0 then s else Run(Apply(s, steps[0]), steps[1..])
  }

  ghost function Init(now: real): State {
    State(now, Idle, [], [], [], map[], [], [], [], [])
  }

  // ---------- the invariant ----------

  /** Every task has one place: control, a queue, the timer tree, or nowhere. */
  ghost predicate Places(s: State) {
    && NoDup(s.ready + s.detached) && Sorted(s.timers) && Unique(s.timers)
    && (forall t :: t in s.ready + s.detached ==> s.Alive(t) && !s.Current(t) && !s.Timed(t))
    && (forall t :: t in TimedTasks(s.timers) ==> s.Alive(t) && !s.Current(t))
    && (!s.control.Idle? ==> s.Alive(s.control.task))
  }

  /** Where task `t` is between two steps: what its suspended do_yield and its timer say of each other. */
  ghost predicate WaitsWell(s: State, t: Task)
    requires t in s.info
  {
    var f := s.info[t].frame;
    && (s.control == Running(t) ==> f.None?)
    && (s.control == Handling(t) ==> f.Some?)
    && (s.Timed(t) ==> f.Some? && f.value.sec > 0.0 && Timer(t, f.value.base + f.value.sec) in s.timers)
    && (s.Alive(t) && !s.Current(t) && !s.Queued(t) ==> f.Some? && (f.value.sec > 0.0 ==> s.Timed(t)))
  }

  ghost predicate Waits(s: State) { forall t :: t in s.info ==> WaitsWell(s, t) }

  /** Tasks are resumed in the order in which they were queued. */
  ghost predicate Fifo(s: State) { s.pushed == s.resumed + s.detached + s.ready }

  /** The count of a task is that of its live children, negative exactly while it is in a join. */
  ghost predicate Counted(s: State, t: Task)
    requires t in s.info
  {
    var i := s.info[t];
    && i.nsubs == (if s.Joining(t) then -|s.Children(t)| else |s.Children(t)|)
    && (i.super.Some? ==> i.super.value in s.info && i.super.value != t)
    && (s.Joining(t) ==> i.alive && (s.Queued(t) && !i.sig && i.err.Ok? ==> i.nsubs == 0))
  }

  ghost predicate Accounts(s: State) { forall t :: t in s.info ==> Counted(s, t) }

  /** A join has returned 0 only where no child was left. */
  ghost predicate JoinsHonest(s: State) {
    forall r :: r in s.answers && r.wait.InJoin? && r.err.Ok? ==> r.children == {}
  }

  ghost predicate Inv(s: State) { Places(s) && Waits(s) && Fifo(s) && Accounts(s) && JoinsHonest(s) }

  /** Handlers of a task in a join start no joinable task (see StartKeepsAccounts), and a task killed
    before it first ran does not join (see JoinKeepsAccounts). */
  ghost predicate Legal(s: State, a: Step) {
    && (a.DoStart? && a.joinable && s.control.Handling? ==> !s.Joining(s.control.task))
    && (a.DoJoin? && s.control.Running? && s.control.task in s.info ==> !s.info[s.control.task].sig)
  }

  ghost predicate LegalRun(s: State, steps: seq<Step>)
    decreases |steps|
  {
    |steps| != 0 ==> Legal(s, steps[0]) && LegalRun(Apply(s, steps[0]), steps[1..])
  }
}
