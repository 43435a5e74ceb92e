/** The table that stands for a task.

  A task is at once a node of the timer tree and an element of the ready list.  All of these
  structures are intrusive, so the fields of each of them sit in the one class, as they sit in the one
  Lua table. */
module Tasks {
  import opened RbShape

  datatype Option<+T> = None | Some(value: T)

  /** The error codes the modelled code hands around; `Ok` is 0. */
  datatype Errno = Ok | ETIMEDOUT | EINTR | EPIPE

  /** A message; `Nothing` is Lua's false. */
  datatype Value = Nothing | Value(code: int)

  /** What a suspended task is waiting in. */
  datatype Wait = InSleep | InJoin | InRead | InWrite

  /** The locals of a suspended do_yield; `sec` is -1 for a wait without time-out. */
  datatype Frame = Frame(base: real, sec: real, acceptEintr: bool, wait: Wait)

  class Task {
    // node of a red-black tree (rbtree.lua)
    var left: Task?
    var right: Task?
    var parent: Task?
    var color: Color
    var key: Option<real>

    // element of the ready list, and scheduling state (tasklet.lua)
    var prev: Task?
    var next: Task?
    var err: Errno
    var alive: bool
    var sig: bool
    var nsubs: int
    var super: Task?
    var frame: Option<Frame>

    // element of a queue of a channel or a service (message.lua, service.lua)
    var svcPrev: Task?
    var svcNext: Task?
    var svcReq: Value
    var svcReqTime: Option<real>
    var svcResp: Value
    var blockedBy: object?

    constructor ()
      ensures key.None? && color.Black?
    {
      left, right, parent := null, null, null;
      color, key := Black, None;
      prev, next, super := null, null, null;
      err, alive, sig, nsubs, frame := Ok, false, false, 0, None;
      svcPrev, svcNext, svcReq := null, null, Nothing;
      svcReqTime, svcResp, blockedBy := None, Nothing, null;
    }
  }
}
