# Lask: a verified model

Lask is a small asynchronous framework for Lua: coroutines as tasks, a timer queue, channels between
tasks, services that answer requests in batches, and C codecs for bytes. This project models the parts
of it in which a mistake would be hardest to see, and proves what the rest of the framework relies on.

Check it with `dafny verify dfyconfig.toml` (Dafny 4.11).

## How it is built

State that the framework changes in place is a class here, with the same fields: the intrusive links of
tasks are fields of `Task`, a ring is a map with two cursors, a buffer is an array with gaps. Each such
class holds a ghost value of an abstract state machine, every method is proved to do to the fields what
a step does to that value, and the main results are theorems about all runs of the state machine.

* **Timer queue** (`RbShape`, `RbLinks`, `RbTrees`, `TimerQueue`). The red-black tree with parent
  pointers and a shared sentinel, whose parent link is scribbled on during a deletion. Trees are values
  in `RbShape`, where each case of the fix-up loops is one lemma; `RbLinks` ties snapshots of the heap to
  them; `RbTrees` has the loops.
* **Scheduler** (`SchedModel`, `SchedInvariant`, `SchedTheorems`, `SchedJoins`,
  `SchedWaits`, `SchedWitnesses`, `Scheduler`). Ready list, timers, joins,
  signals. The code of tasks is not restricted: between two switches it may take any steps.
* **Message channel** (`ChannelModel`, `ChannelInvariant`, `ChannelMoves`, `ChannelRuns`,
  `ChannelOrder`, `ChannelMessages`, `Channel`,
  `TaskQueue`). A bounded ring, two intrusive queues, direct hand-off, time-outs and close, on top of the
  scheduler.
* **Multi-service** (`ServiceModel`, `ServiceInvariant`, `ServiceTheorems`, `ServiceHistory`, `Service`). Batches of requests,
  time-outs of requests in the queue and in an open batch.
* **JSON** (`JsonText`, `JsonModel`, `JsonGrammar`, `JsonReads`, `JsonRoundTrip`, `Strbuf`, `JsonEncoder`,
  `JsonParser`). The grammar of RFC 8259 with what its texts stand for, a printer that writes it, a parser
  that reads it, and the length arguments behind the unchecked appends.
* **Byte buffer** (`Buffer`, `BufferTheorems`, `Stream`). The gap buffer as a sequence of bytes, typed framing,
  lines that do not depend on how their bytes arrived, and the stream channel that reads them.
* **Digest and codings** (`Md5`, `Md5Theorems`, `UrlCodec`, `Chunked`). The padding loop and the unrolled rounds, URL
  coding, and the chunked coding written in one file and read in another.

Where the code does not do what one would expect, the model follows the code and the exact condition is
proved: `StartKeepsAccounts`, `JoinKeepsAccounts`, `CloseClears`, `StaleAnswer`, `MarkAsRequest`, `PaddedAsRfc`,
`UrlRoundTrip`, `SufficientIff`, `BlockLimit` say when it does, and `Post` raises an error on a closed
channel.

## Model

| member | source | states |
|---|---|---|
| `RbTrees.RbTree.Insert` | lask/luasrc/rbtree.lua:72-150 | the red-black discipline, all links and the count are kept, and the tree is the sorted queue with the node behind those of equal key |
| `RbTrees.RbTree.Delete` | lask/luasrc/rbtree.lua:152-308 | for any member node: the discipline, all links, the count and the black sentinel are kept, and the in-order sequence loses just that node; both fix-up loops end |
| `RbTrees.RbTree.FixInsertion` | lask/luasrc/rbtree.lua:101-148 | the loop after an insertion, from a red node with a red parent to a red-black tree of the same order |
| `RbTrees.RbTree.FixDeletion` | lask/luasrc/rbtree.lua:235-307 | the loop after a deletion, from a place one black node short to a red-black tree of the same order; the sentinel is never taken for a sibling |
| `RbTrees.RbTree.Splice` | lask/luasrc/rbtree.lua:160-231 | taking out a node, or its successor which takes its place, leaves every link right |
| `RbTrees.RbTree.LeftRotate` | lask/luasrc/rbtree.lua:11-41 | a rotation relinks just the tree rotated as a value, parent links and root included |
| `RbTrees.RbTree.RightRotate` | lask/luasrc/rbtree.lua:43-70 | the mirror image |
| `RbTrees.RbTree.Min` | lask/luasrc/rbtree.lua:310-320 | the first of the queue, nothing if and only if there is none |
| `RbTrees.RbTree.Max` | lask/luasrc/rbtree.lua:322-332 | the last of the queue |
| `RbTrees.RbTree.TreeHeight` | lask/luasrc/rbtree.lua:354-364 | the height, at most 2*log2(count+1) |
| `RbLinks.TurnedLeftAt` | lask/luasrc/rbtree.lua:11-41 | on a snapshot of the heap, the links left_rotate changes turn one correctly linked tree into another |
| `RbShape.HeightIsLogarithmic` | lask/luasrc/rbtree.lua:354-364 | a red-black tree of n elements has 2^height <= (n+1)^2 |
| `RbShape.DepthWithin` | lask/luasrc/rbtree.lua:354-364 | no way down is longer than the height |
| `RbShape.DeepestLeaf` | lask/luasrc/rbtree.lua:354-364 | one way down is as long |
| `RbShape.NewLeafRedAt` | lask/luasrc/rbtree.lua:84-99 | a red leaf violates nothing but, perhaps, the rule on red edges |
| `RbShape.RecoloredRedAt` | lask/luasrc/rbtree.lua:107-113 | red uncle: the only possible violation moves two levels up |
| `RbShape.OuterRedAt` | lask/luasrc/rbtree.lua:115-120 | an inner red grandchild is turned into an outer one, and the possible violation stays with it |
| `RbShape.SettledRedAt` | lask/luasrc/rbtree.lua:114-125 | black uncle: the rotation and the change of colors remove the violation |
| `RbShape.ShortSibling` | lask/luasrc/rbtree.lua:237-241 | a place that is one black node short has a sibling that is a real node |
| `RbShape.RedSibling` | lask/luasrc/rbtree.lua:243-249 | a red sibling is turned into a black one and the place stays as short as it was |
| `RbShape.BlackNephews` | lask/luasrc/rbtree.lua:251-255 | black nephews: the shortage moves one level up |
| `RbShape.InnerNephew` | lask/luasrc/rbtree.lua:257-264 | a red inner nephew becomes an outer one |
| `RbShape.OuterNephew` | lask/luasrc/rbtree.lua:266-270 | a red outer nephew makes up for the shortage |
| `RbShape.SplicedAt` | lask/luasrc/rbtree.lua:160-233 | what a removal does to the black heights, whichever node is spliced out |
| `RbShape.SplicedSequence` | lask/luasrc/rbtree.lua:160-231 | a removal takes just the one element out of the order |
| `TimerQueue.InsertedSorted` | lask/luasrc/rbtree.lua:84-99 | insertion behind equal keys keeps a queue sorted |
| `TimerQueue.InsertedBetween` | lask/luasrc/rbtree.lua:84-99 | an element goes behind those that are not later and before those that are |
| `TimerQueue.RemovedSorted` | lask/luasrc/rbtree.lua:152-308 | removal keeps it sorted |
| `Scheduler.Tasklet.PushReady` | lask/luasrc/tasklet.lua:65-87 | a task goes to the end of the linked ready list unless it is queued, and leaves the timer tree; refines the abstract step |
| `Scheduler.Tasklet.Block` | lask/luasrc/tasklet.lua:90-119 | do_yield up to the switch, with its error inside a signal; a task that blocks for v seconds is timed for the clock plus v, or plus a millisecond for less, and without a time-out or with a negative one not at all |
| `Scheduler.Tasklet.HandlerDone` | lask/luasrc/tasklet.lua:109-135 | do_yield after a signal handler: it returns EINTR or ETIMEDOUT, which is the answer given, or is blocked again with the old deadline |
| `Scheduler.Tasklet.Switch` | lask/luasrc/tasklet.lua:137-143 | do_resume hands control to the code of the task, with what its do_yield returns, or to its signal handler |
| `Scheduler.Tasklet.Finish` | lask/luasrc/tasklet.lua:145-161 | the end of a coroutine: the parent counts it off and is woken by the last child it waits for |
| `Scheduler.Tasklet.TakeReady` | lask/luasrc/tasklet.lua:173-175 | the ready list is taken off |
| `Scheduler.Tasklet.ResumeFirst` | lask/luasrc/tasklet.lua:178-185 | the next task of the detached list is resumed, with the answer its do_yield returns |
| `Scheduler.Tasklet.ResumeList` | lask/luasrc/tasklet.lua:173-193 | whatever the resumed tasks do, every task queued before is resumed, in order, and when the list is drained all that were ever queued are |
| `Scheduler.Tasklet.StartTask` | lask/luasrc/tasklet.lua:208-231 | a new task is entered, counted by its parent and queued |
| `Scheduler.Tasklet.KillTask` | lask/luasrc/tasklet.lua:250-265 | another task is signalled and queued |
| `Scheduler.Tasklet.Join` | lask/luasrc/tasklet.lua:267-280 | join_tasks negates the count and blocks, timed as in Block, or does not block without children |
| `Scheduler.Tasklet.FireNext` | lask/luasrc/tasklet.lua:351-359 | one round of the timer loop, with the answer that the do_yield of the task returns |
| `Scheduler.Tasklet.ResumeTimedout` | lask/luasrc/tasklet.lua:348-360 | the loop ends and fires the timers due at its start in the order of the queue, but for tasks queued meanwhile, whatever the resumed tasks do |
| `SchedInvariant.StepInv` | lask/luasrc/tasklet.lua:65-280 | every legal step keeps the invariant |
| `SchedInvariant.RunInv` | lask/luasrc/tasklet.lua:65-364 | every legal run keeps it |
| `SchedInvariant.StartKeepsAccounts` | lask/luasrc/tasklet.lua:216-219 | a joinable start keeps the counts right if and only if the starting task is not itself in a join |
| `SchedInvariant.JoinKeepsAccounts` | lask/luasrc/tasklet.lua:267-276 | a join keeps the invariant if and only if no signal is pending |
| `SchedTheorems.OnePlace` | lask/luasrc/tasklet.lua:65-193 | over every run a live task is in exactly one place: in control, ready, in the detached list, timed, or parked |
| `SchedTheorems.WakeTwice` | lask/luasrc/tasklet.lua:65-69 | waking twice queues once, with the first error code |
| `SchedTheorems.QueueOrder` | lask/luasrc/tasklet.lua:173-193 | over every run, across all generations of the list, tasks are resumed in the order they were queued |
| `SchedTheorems.JoinCounts` | lask/luasrc/tasklet.lua:145-161 | over every run the absolute count of a task is the number of its live joinable children, and it is negative only in a join |
| `SchedTheorems.JoinedAllDead` | lask/luasrc/tasklet.lua:267-280 | over every run join_tasks returns 0 only where every joinable child has died, also after an earlier join timed out |
| `SchedJoins.JoinWakes` | lask/luasrc/tasklet.lua:145-161 | over every run without a kill of the task, one in a join whose children have all died is in the ready list |
| `SchedWitnesses.KillSwallowsWakeUp` | lask/luasrc/tasklet.lua:119-134 | with a kill before it is resumed the task blocks again, with no child left |
| `SchedWaits.BlockWaits` | lask/luasrc/tasklet.lua:97-116 | what a task that blocks or joins is timed for |
| `SchedWaits.SleepsUntil` | lask/luasrc/tasklet.lua:97-116 | over any run a task that blocked for v seconds, and that nobody wakes or signals, stays timed for v after its block, and its do_yield returns only when that timer fires, with ETIMEDOUT, at least v seconds later |
| `SchedWaits.HandlerAnswers` | lask/luasrc/tasklet.lua:120-134 | when its handler is done a do_yield returns EINTR, or ETIMEDOUT when its time is over, or waits on for the same deadline |
| `SchedWaits.WokenReturns` | lask/luasrc/tasklet.lua:65-87 | over any run a blocked task that is woken with an error code, and not signalled, is queued until its do_yield returns that code |
| `SchedWaits.KillIsHandled` | lask/luasrc/tasklet.lua:119-130 | over any run a blocked task that is killed is queued until its signal handler gets control |
| `SchedWaits.ChildrenChange` | lask/luasrc/tasklet.lua:145-161 | a joinable start gives the starting task a child, a death takes one away, and no other step changes whose children tasks are |
| `SchedTheorems.RunDrains` | lask/luasrc/tasklet.lua:348-360 | over any run at a fixed clock no timer becomes due, and none is lost but by firing or queueing |
| `SchedTheorems.FirePass` | lask/luasrc/tasklet.lua:348-360 | with a fixed clock exactly the due timers fire, in the order of deadline and insertion, at most as many as were due |
| `SchedTheorems.FrameKept` | lask/luasrc/tasklet.lua:90-135 | only the suspension and the return of a task change what it waits for |
| `SchedTheorems.DeadlineKept` | lask/luasrc/tasklet.lua:90-135 | over any run, until its do_yield returns, a task keeps what it waits for, and whenever it is in the timer tree it is there with the deadline of its first block, whatever signals took it out meanwhile |
| `SchedTheorems.DeadlineAfterSignal` | lask/luasrc/tasklet.lua:119-134 | when the handler of a task that was timed is done, its do_yield returns or it is back in the tree with the deadline it had before the signal; the latter if and only if it accepts no EINTR and the deadline has not come |
| `SchedTheorems.SignalUntimes` | lask/luasrc/tasklet.lua:250-258 | a signal takes a task out of the timer tree and queues it |
| `SchedWitnesses.StartBreaksAccounts` | lask/luasrc/tasklet.lua:216-219 | a legal run reaches a state in which a joinable start breaks the counts |
| `SchedWitnesses.JoinBreaksAccounts` | lask/luasrc/tasklet.lua:267-276 | a legal run reaches a state in which a join breaks them |
| `TaskQueues.PushTask` | lask/luasrc/tasklet/channel/message.lua:27-39 | a task goes to the end of a queue linked through the tasks; head.t_svcprev is the tail again |
| `TaskQueues.PopTask` | lask/luasrc/tasklet/channel/message.lua:91-107 | the head leaves the queue |
| `TaskQueues.UnlinkTask` | lask/luasrc/tasklet/channel/message.lua:41-53 | a task leaves the queue wherever it is, the others keep their order |
| `TaskQueues.CutFront` | lask/luasrc/tasklet/service.lua:120-126 | the first tasks of a queue leave it together |
| `TaskQueues.UnlinkedNoDup` | lask/luasrc/tasklet/channel/message.lua:41-53 | without the task the queue is duplicate-free, and the task is not in it |
| `Channels.Channel.constructor` | lask/luasrc/tasklet/channel/message.lua:60-71 | a new channel satisfies the invariant |
| `Channels.Channel.Read` | lask/luasrc/tasklet/channel/message.lua:73-142 | read, with the ring, the cursors and the queues as they are linked, refines the abstract read; if it blocks it is timed as in Block |
| `Channels.Channel.Write` | lask/luasrc/tasklet/channel/message.lua:145-189 | write does, and if it blocks it is timed as in Block |
| `Channels.Channel.Post` | lask/luasrc/tasklet/channel/message.lua:193-226 | post does; it raises an error if and only if the channel is closed |
| `Channels.Channel.RaisedOnlyClosed` | lask/luasrc/tasklet/channel/message.lua:194-196 | the assertion in post cannot fail on an open channel |
| `Channels.Channel.Close` | lask/luasrc/tasklet/channel/message.lua:228-261 | close wakes both queues with EPIPE, and empties just the slots of its loop |
| `Channels.CloseEmpties` | lask/luasrc/tasklet/channel/message.lua:248-260 | no message is left in the ring if and only if there was at most one or they end before the last slot |
| `Channels.RingWraps` | lask/luasrc/tasklet/channel/message.lua:248-260 | two writes, a read and a write bring a ring of two slots to where a message is left |
| `Channels.Channel.ResumeNext` | lask/luasrc/tasklet/channel/message.lua:129-141 | a task resumed from the ready list goes on in its read or write, which returns its message, 0, or the error of its do_yield |
| `Channels.Channel.FireNext` | lask/luasrc/tasklet/channel/message.lua:129-135 | a task whose timer fires withdraws from its queue, and its call returns ETIMEDOUT |
| `Channels.RingTake` | lask/luasrc/tasklet/channel/message.lua:79-87 | taking from the ring drops the first message and keeps wcursor = rcursor + num modulo cap |
| `Channels.RingPut` | lask/luasrc/tasklet/channel/message.lua:164-172 | putting into it adds one at the end |
| `Channels.CloseClears` | lask/luasrc/tasklet/channel/message.lua:248-260 | close clears just the occupied slots if and only if there is at most one or they end before the last slot |
| `ChannelMoves.HandedInv` | lask/luasrc/tasklet/channel/message.lua:149-158 | handing a message to a waiting reader keeps the invariant |
| `ChannelMoves.WriteInv` | lask/luasrc/tasklet/channel/message.lua:145-189 | write keeps the invariant, on every branch |
| `ChannelMoves.ReadInv` | lask/luasrc/tasklet/channel/message.lua:73-142 | read keeps it |
| `ChannelMoves.PostInv` | lask/luasrc/tasklet/channel/message.lua:193-226 | post keeps it |
| `ChannelMoves.CloseInv` | lask/luasrc/tasklet/channel/message.lua:228-261 | close keeps it |
| `ChannelRuns.ReturnedInv` | lask/luasrc/tasklet/channel/message.lua:129-141 | the rest of a call that comes back, with 0 or with an error, keeps it |
| `ChannelRuns.SchedulerInv` | lask/luasrc/tasklet/channel/message.lua:73-189 | every step of the scheduler with the rest of a call it resumes keeps it |
| `ChannelRuns.MovesInv` | lask/luasrc/tasklet/channel/message.lua:73-261 | every fair run of reads, writes, posts, closes and scheduler steps keeps it |
| `ChannelRuns.MessageOrder` | lask/luasrc/tasklet/channel/message.lua:73-226 | over every run accepted = delivered + in the ring (+ dropped by close), in the order of the calls |
| `ChannelRuns.ReturnedOnce` | lask/luasrc/tasklet/channel/message.lua:137-139 | over every run no message is returned twice, and one assigned to a reader is returned by it or about to be |
| `ChannelOrder.ReadOrder` | lask/luasrc/tasklet/channel/message.lua:73-142 | over every run a reader is returned its messages in the order in which they were assigned to it, the last of them possibly still to come, which is when it has not been resumed |
| `ChannelMessages.AsWritten` | lask/luasrc/tasklet/channel/message.lua:145-226 | over every run each message on offer, accepted, in the ring, assigned, returned or dropped is the one that a write or post brought, the one that raised the number of calls to that of the message |
| `ChannelRuns.CallsAnswered` | lask/luasrc/tasklet/channel/message.lua:145-226 | over every run a call answered with 0 is accepted and no other is; each is accepted, on offer or refused |
| `ChannelRuns.NobodyForgotten` | lask/luasrc/tasklet/channel/message.lua:73-189 | waiting readers mean an empty ring and no waiting writers, waiting writers a full ring; every blocked task is in its queue |
| `ChannelRuns.CloseWakes` | lask/luasrc/tasklet/channel/message.lua:239-246 | close wakes every waiting task with EPIPE, readers first, in order |
| `ChannelRuns.MoveIsSteps` | lask/luasrc/tasklet/channel/message.lua:73-261 | to the scheduler every call of a channel is a legal run of its own steps |
| `Services.MultiService.constructor` | lask/luasrc/tasklet/service.lua:166-188 | a new multi-service satisfies the invariant |
| `Services.MultiService.Submit` | lask/luasrc/tasklet/service.lua:228-244 | a request is queued, counted, and may call for the owner |
| `Services.MultiService.GiveUp` | lask/luasrc/tasklet/service.lua:247-254 | a request that timed out leaves the queue and the count, unless it is already marked as taken |
| `Services.MultiService.Answered` | lask/luasrc/tasklet/service.lua:244-246 | a woken request returns the answer |
| `Services.MultiService.Serve` | lask/luasrc/tasklet/service.lua:87-93 | the owner waits, or goes on to a batch |
| `Services.MultiService.Handle` | lask/luasrc/tasklet/service.lua:95-130 | at most `num` requests are copied, marked, cut off the queue and handed to the handler, which finds in its slots what was asked |
| `Services.MultiService.HandlerReturned` | lask/luasrc/tasklet/service.lua:130-134 | the batch goes to the chain of those to be answered |
| `Services.MultiService.Pass` | lask/luasrc/tasklet/service.lua:271-342 | service_schedule wakes the owner and hands each slot to its task, if that still waits for it |
| `ServiceInvariant.AskInv` | lask/luasrc/tasklet/service.lua:228-242 | a request keeps the invariant |
| `ServiceInvariant.ExpireInv` | lask/luasrc/tasklet/service.lua:247-254 | a time-out keeps it |
| `ServiceInvariant.TakeInv` | lask/luasrc/tasklet/service.lua:104-126 | taking a batch keeps it |
| `ServiceInvariant.ScheduleInv` | lask/luasrc/tasklet/service.lua:271-342 | handing out answers keeps it |
| `ServiceInvariant.RunInv` | lask/luasrc/tasklet/service.lua:87-342 | every fair run keeps it |
| `ServiceTheorems.TakenInOrder` | lask/luasrc/tasklet/service.lua:99-130 | svc_nreq is the length of the queue, and batches of at most `max` are prefixes of the queue, in the order of the requests |
| `ServiceHistory.BatchTaken` | lask/luasrc/tasklet/service.lua:88-104 | exactly when a round takes a batch |
| `ServiceHistory.BatchIsFull` | lask/luasrc/tasklet/service.lua:99-126 | a batch is a prefix of the queue, of all the requests or of as many as the service takes at once |
| `ServiceHistory.AsAsked` | lask/luasrc/tasklet/service.lua:231-233 | over every run each request is the task, the value and the clock of the call that has its number |
| `ServiceHistory.AsHandled` | lask/luasrc/tasklet/service.lua:130-134 | over every run the answers come from what the handler left in its slots when it returned |
| `ServiceTheorems.AnsweredOnce` | lask/luasrc/tasklet/service.lua:303-318 | over every run, time-outs included, no request is answered twice, and each answer is the slot of that request |
| `ServiceTheorems.NobodyForgotten` | lask/luasrc/tasklet/service.lua:228-255 | a task in a request is queued, in the open batch, or has its answer |
| `ServiceTheorems.BatchKept` | lask/luasrc/tasklet/service.lua:95-97 | the arrays of a batch are not overwritten before it is handed out |
| `ServiceTheorems.BatchAnswered` | lask/luasrc/tasklet/service.lua:308-318 | handing out leaves nobody of the batch waiting |
| `ServiceTheorems.OwnerWoken` | lask/luasrc/tasklet/service.lua:271-302 | an owner waiting while there are enough requests is woken by one of the next two passes |
| `ServiceTheorems.StaleAnswer` | lask/luasrc/tasklet/service.lua:311-313 | a task that timed out and asks again before the answers are handed out gets the answer to its old request if and only if the clock has not moved since the handler was started |
| `ServiceTheorems.StaleAnswerEarly` | lask/luasrc/tasklet/service.lua:311-313 | the same for a task that asks again while the handler still runs |
| `ServiceTheorems.StaleAnswerHappens` | lask/luasrc/tasklet/service.lua:311-313 | a run reaches a state in which both happen |
| `ServiceTheorems.MarkAsRequest` | lask/luasrc/tasklet/service.lua:248-251 | a timed-out request leaves the queue if and only if it is not the mark itself |
| `JsonText.QuotedFits` | contrib/cjson/lua_cjson.c:473-475 | the reservation of len*6+2 covers every string |
| `JsonText.EscapedRead` | contrib/cjson/lua_cjson.c:866-921 | every byte string survives being escaped and unescaped, NUL and bytes from 0x80 included |
| `JsonText.EscapeShrinks` | contrib/cjson/lua_cjson.c:800-856 | an escape is at least as long as its bytes |
| `JsonText.Utf8IsRfc3629` | contrib/cjson/lua_cjson.c:756-790 | the bytes are the one encoding of the scalar value by section 3 of RFC 3629 |
| `JsonText.EscapesExactly` | contrib/cjson/lua_cjson.c:800-856 | an escape is accepted with these bytes if and only if it stands for a scalar value by section 7 of RFC 8259 and they are its UTF-8 form; lone surrogates are rejected |
| `JsonReads.ShortExactly` | contrib/cjson/lua_cjson.c:408-419 | a backslash and a letter are accepted if and only if section 7 of RFC 8259 gives them a byte, and are that byte |
| `JsonReads.CharsRead` | contrib/cjson/lua_cjson.c:866-921 | every string text of section 7 of RFC 8259 is read as the bytes it denotes |
| `JsonReads.ReadsJson` | contrib/cjson/lua_cjson.c:995-1237 | every text of the grammar of RFC 8259, with any white space, is decoded to the value it stands for |
| `JsonRoundTrip.StringWrites` | contrib/cjson/lua_cjson.c:465-489 | the text written for a string denotes it by section 7 of RFC 8259 |
| `JsonRoundTrip.ValueWrites` | contrib/cjson/lua_cjson.c:538-682 | what is written for a plain value is a text of the grammar, and stands for that value |
| `JsonRoundTrip.EncodesIff` | contrib/cjson/lua_cjson.c:538-682 | a plain value is encoded if and only if it nests at most encode_max_depth deep |
| `JsonRoundTrip.EncodeNoNul` | contrib/cjson/lua_cjson.c:465-489 | no text that is written has a NUL |
| `JsonRoundTrip.RoundTrip` | contrib/cjson/lua_cjson.c:538-1237 | decoding the text of a plain value gives the value back and consumes all of it, whatever order tables are listed in |
| `JsonEncoder.DecimalFits` | contrib/cjson/lua_cjson.c:582-596 | no number outgrows the room reserved for it |
| `JsonEncoder.Encoder.AppendString` | contrib/cjson/lua_cjson.c:465-489 | the quoted text is appended by unsafe appends that are all in bounds |
| `JsonEncoder.Encoder.ArrayLength` | contrib/cjson/lua_cjson.c:495-536 | the length of an array, -1 for an object, or an excessively sparse array, whatever order the keys come in |
| `JsonEncoder.Encoder.AppendArray` | contrib/cjson/lua_cjson.c:556-580 | the text of an array is appended, or the encoding fails as specified |
| `JsonEncoder.Encoder.AppendObject` | contrib/cjson/lua_cjson.c:598-641 | the text of an object |
| `JsonEncoder.Encoder.AppendData` | contrib/cjson/lua_cjson.c:644-682 | the text of any value; current_depth is restored |
| `JsonEncoder.Encoder.EncodeText` | contrib/cjson/lua_cjson.c:684-710 | the text is that of Encode, and the depth is 0 again |
| `JsonParser.Parser.AppendUnicodeEscape` | contrib/cjson/lua_cjson.c:800-856 | just the escapes of the specification are accepted and their bytes appended |
| `JsonParser.Parser.NextString` | contrib/cjson/lua_cjson.c:866-921 | the scratch buffer holds fewer bytes than were read, so its unsafe appends are in bounds |
| `JsonParser.Parser.NextToken` | contrib/cjson/lua_cjson.c:995-1067 | the token at the index, and the index behind it |
| `JsonParser.Parser.ProcessValue` | contrib/cjson/lua_cjson.c:1183-1210 | the value that a token starts |
| `JsonParser.Parser.ParseArray` | contrib/cjson/lua_cjson.c:1149-1180 | the elements up to the bracket |
| `JsonParser.Parser.ParseObject` | contrib/cjson/lua_cjson.c:1101-1146 | the members up to the brace |
| `JsonParser.DecodeText` | contrib/cjson/lua_cjson.c:1213-1258 | the value of the whole text, if it is the text of one |
| `Strbufs.Strbuf.SetIncrement` | contrib/cjson/strbuf.c:84-92 | the growth is set, the text stays |
| `Strbufs.Strbuf.NewSize` | contrib/cjson/strbuf.c:134-159 | the loop ends with room for the request; exactly when rounding makes room as well is told |
| `Strbufs.Strbuf.Resize` | contrib/cjson/strbuf.c:164-180 | what fits of the text stays |
| `Strbufs.Strbuf.EnsureEmptyLength` | contrib/cjson/strbuf.h:93-97 | the text is kept and the room asked for is there |
| `Strbufs.Strbuf.AppendString` | contrib/cjson/strbuf.c:182-198 | the text grows by the string |
| `Strbufs.SufficientIff` | contrib/cjson/strbuf.c:150-158 | with linear growth the new size has the room asked for if and only if there is no multiple of the increment between the old size and the text |
| `Strbufs.StepTooShort` | contrib/cjson/strbuf.c:150-158 | a size that is a multiple of the increment never grows |
| `Buffers.Buffer.Grow` | lask/std/lbuffer.c:49-83 | room behind the data, which keeps its content; doubling ends |
| `Buffers.Buffer.Push` | lask/std/lbuffer.c:85-94 | append |
| `Buffers.Buffer.Adjust` | lask/std/lbuffer.c:96-122 | compaction changes no content, whatever its heuristics choose |
| `Buffers.Buffer.Pop` | lask/std/lbuffer.c:124-131 | a clamped suffix is dropped |
| `Buffers.Buffer.Shift` | lask/std/lbuffer.c:133-141 | a clamped prefix is dropped |
| `Buffers.Buffer.Reset` | lask/std/lbuffer.c:149-157 | the content and memory beyond the least size are given up |
| `Buffers.Buffer.EndLen` | lask/std/lbuffer.c:410-425 | the length before the mark is set and nothing else; nothing happens for a mark that is none |
| `Buffers.Buffer.PutPieces` | lask/std/lbuffer.c:399-425 | nested frames hold exactly the number of bytes appended inside each |
| `Buffers.Buffer.PutList` | lask/std/lbuffer.c:714-755 | the values are appended in their widths and the byte order |
| `Buffers.Buffer.GetList` | lask/std/lbuffer.c:547-594 | values are read until one is not all there |
| `Buffers.Buffer.GetLines` | lask/std/lbuffer.c:432-452 | the first lines are taken off the content |
| `Buffers.Reader.GetLine` | lask/std/lreader.c:30-62 | the first line without its terminator, which is overwritten in place, or nothing |
| `BufferTheorems.ValueRoundTrip` | lask/std/lstdimpl.h:55-87 | a stored value is loaded modulo its width, in either byte order |
| `BufferTheorems.PairValue` | lask/std/lstdimpl.h:55-77 | of two bytes the first is the high one just in big-endian order |
| `BufferTheorems.FourBytes` | lask/std/lstdimpl.h:56-83 | four bytes are the digits of the value to the base 256, most significant first just in big-endian order |
| `BufferTheorems.BytesRoundTrip` | lask/std/lstdimpl.h:55-87 | the bytes of a loaded value are the bytes that were there |
| `BufferTheorems.ListRoundTrip` | lask/std/lbuffer.c:547-755 | getlist after putlist with the same format gives the values modulo their widths and leaves the rest |
| `BufferTheorems.ListRead` | lask/std/lbuffer.c:547-594 | what getlist takes off any content is what putlist writes for the values it read |
| `BufferTheorems.FramesFound` | lask/std/lbuffer.c:399-425 | the lengths alone tell consecutive frames apart |
| `BufferTheorems.ChunksDoNotMatter` | lask/std/lbuffer.c:432-452 | under any interleaving of pushes and getline the lines taken are the first lines of all that came, and the content is what is behind them |
| `BufferTheorems.LinesOfTheWhole` | lask/std/lbuffer.c:432-452 | they are a prefix of the lines of the whole, and all of them if and only if no more can be had |
| `BufferTheorems.LinesAreSegments` | lask/std/lreader.c:30-62 | the lines are the segments between LFs less a CR or NUL at the end, up to a segment that starts with NUL |
| `BufferTheorems.StrippedIs` | lask/std/lreader.c:44-60 | one CR or NUL at the end of a line is stripped and nothing else |
| `BufferTheorems.Segmented` | lask/std/lreader.c:30-62 | every content is so made up |
| `BufferTheorems.Drive` | lask/std/lbuffer.c:85-94 | the buffer itself, pushed to and taken from in any order, gives those lines |
| `Streams.StreamChannel.ReadSome` | lask/luasrc/tasklet/channel/stream.lua:250-291 | what the kernel brings goes behind what is buffered, which never exceeds ch_rbufsiz |
| `Streams.StreamChannel.OnEvent` | lask/luasrc/tasklet/channel/stream.lua:512-552 | an event keeps the accounts, and a waiting task that it does not wake, though there was room, has nothing to return |
| `Streams.StreamChannel.Read` | lask/luasrc/tasklet/channel/stream.lua:314-413 | a read returns the next bytes, just as many as were asked for and the buffer can hold, or fewer only at the end of the connection; or the next line; it blocks only for what is not there; and it keeps the accounts |
| `Streams.StreamChannel.Attempt` | lask/luasrc/tasklet/channel/stream.lua:354-412 | the loop of read ends, with something to return it returns that, and what it returns fits the request |
| `Streams.StreamChannel.Resume` | lask/luasrc/tasklet/channel/stream.lua:402-411 | a task that was woken on a connection that is not broken returns what it asked for without blocking again |
| `Streams.StreamChannel.Close` | lask/luasrc/tasklet/channel/stream.lua:489-510 | close gives up what is buffered and wakes the reading task |
| `Streams.Drive` | lask/luasrc/tasklet/channel/stream.lua:250-552 | over any sequence of events, reads, time-outs, failed writes and close, what was delivered, then a held line, is a prefix of the bytes received, and the buffer is the rest of them |
| `Streams.LinesOnly` | lask/luasrc/tasklet/channel/stream.lua:374-384 | items that are lines are the first lines of their bytes |
| `Streams.StreamChannel.LinesInOrder` | lask/luasrc/tasklet/channel/stream.lua:374-384 | when nothing but lines was read they are the first lines of the bytes received, whether a read or an event found them |
| `Md5.Digest` | lask/std/lmd5.c:107-165 | the unrolled rounds are the 64 steps of section 3.4 of RFC 1321, whose registers rotate |
| `Md5.FourOne` | lask/std/lmd5.c:110-119 | four statements on fixed registers are four steps that rotate them; likewise in the next rounds |
| `Md5.FourTwo` | lask/std/lmd5.c:121-134 | the second round |
| `Md5.FourThree` | lask/std/lmd5.c:136-149 | the third round |
| `Md5.FourFour` | lask/std/lmd5.c:151-164 | the fourth round |
| `Md5.TailStep` | lask/std/lmd5.c:194-230 | each turn of the status loop feeds in the next block of the padded message, in each of its three states |
| `Md5Theorems.PaddedAsRfc` | lask/std/lmd5.c:181-186 | the bytes fed in are the message padded by sections 3.1 and 3.2 of RFC 1321 if and only if the length modulo 2^61 is below 2^32 |
| `Md5Theorems.WordBytes` | lask/std/lmd5.c:168-178 | a word of the message has its low-order byte first |
| `Md5Theorems.WordsBytes` | lask/std/lmd5.c:168-178 | the words of a block hold its bytes in their order |
| `Md5Theorems.RotatedIs` | lask/std/lmd5.c:56-56 | rotate is the circular left shift |
| `Md5Theorems.ShiftIn` | lask/std/lmd5.c:110-164 | the rounds rotate by those numbers of bits only for which RotatedIs is proved |
| `Md5Theorems.FIs` | lask/std/lmd5.c:59-59 | F selects y or z by x, in every bit |
| `Md5Theorems.GIs` | lask/std/lmd5.c:60-60 | G selects x or y by z, in every bit |
| `Md5Theorems.HIs` | lask/std/lmd5.c:61-61 | H is the parity, in every bit |
| `Md5Theorems.IIs` | lask/std/lmd5.c:62-62 | I is y, turned round where x or not z |
| `Md5Theorems.OpIs` | lask/std/lmd5.c:111-112 | one operation of a round, in arithmetic modulo 2^32 |
| `Md5Theorems.CompressedIs` | lask/std/lmd5.c:227-227 | the registers are increased by what they held before the block |
| `Md5Theorems.StepTables` | lask/std/lmd5.c:110-164 | the steps take the words and the shifts that section 3.4 of RFC 1321 lists |
| `Md5Theorems.InitialBytes` | lask/std/lmd5.c:98-103 | the registers start from the bytes of section 3.3 |
| `Md5.Converte` | lask/std/lmd5.c:194-209 | the block and the status |
| `Md5.Md5` | lask/std/lmd5.c:213-231 | the loop ends and the digest is that of the blocks of the padded message |
| `UrlCodec.UrlEncode` | lask/std/lcodec.c:26-68 | the staged output is the map of every byte up to the first NUL |
| `UrlCodec.DecodeInPlace` | lask/std/lcodec.c:70-90 | decoding in place, where what is written never overtakes what is read |
| `UrlCodec.UrlDecode` | lask/std/lcodec.c:95-118 | the decoded text up to its first NUL |
| `UrlCodec.DecodedEncoded` | lask/std/lcodec.c:26-90 | decoding what was encoded resolves the escapes that were in the text |
| `UrlCodec.UnitIs` | lask/std/lcodec.c:296-309 | which bytes are escaped, with which digits, and that a space is a plus sign |
| `UrlCodec.EncodedPlain` | lask/std/lcodec.c:39-57 | an encoded text has no byte from 128 on and no reserved character but a plus sign for every space |
| `UrlCodec.DecodedIs` | lask/std/lcodec.c:74-86 | an escape with digits of either case is the byte that they say, and a plus sign a space |
| `UrlCodec.UrlRoundTrip` | lask/std/lcodec.c:26-90 | the round trip gives back the text if and only if it has no NUL and no percent sign before two digits |
| `Chunked.Connection.Write` | lask/luasrc/httpd.lua:281-303 | blocks go out once there is enough, each with its size in the room left for it |
| `Chunked.Connection.Flush` | lask/luasrc/httpd.lua:339-360 | the last block and the terminator |
| `Chunked.ReadContent` | lask/luasrc/http.lua:516-541 | the chunk loop appends what the chunks hold |
| `Chunked.ChunkRead` | lask/luasrc/http.lua:516-541 | one chunk gives its block, an empty one ends the body |
| `Chunked.BlocksAreWrites` | lask/luasrc/httpd.lua:281-303 | no byte is lost or repeated between writes and blocks, and a block goes out once there are more than 8000 bytes |
| `Chunked.ChunkIsRfc9112` | lask/luasrc/httpd.lua:289-292 | below 65536 bytes a chunk is one of section 7.1 of RFC 9112, its size as four digits to the base 16 |
| `Chunked.ChunkedRoundTrip` | lask/luasrc/http.lua:516-541 | the reader gets the bytes of all the writes, whatever it gets at a time, and leaves what is behind the terminator; after an empty last block the terminator as well |
| `Chunked.BlockLimit` | lask/luasrc/httpd.lua:291-292 | a response of one block comes back if and only if its size has at most five digits, or the block repeats itself with the text behind it in one of a few ways |
| `Chunked.LineEndsRepeat` | lask/luasrc/httpd.lua:291-292 | there are such blocks: nothing but line ends |

## Left out

Assumptions that results carry, and members that state less than the code does:

- SchedTheorems.OnePlace: like all runs of the scheduler, for runs in which no signal handler of a joining task starts a joinable task and no task joins that was killed before it first ran; SchedWitnesses has runs in which these break the join counts, and StartKeepsAccounts and JoinKeepsAccounts show that nothing else does. A wake-up of the current task, or of one in a join, changes nothing in these runs, where push_ready would queue it.
- ChannelRuns.MessageOrder: like all runs of a channel, for runs in which nobody but the channel wakes or kills a task that waits in it, and no task uses it that was killed before it first ran; a wake-up of a killed task is swallowed by do_yield, and a reaped task is not unlinked.
- ServiceTheorems.AnsweredOnce: like all runs of a service, for runs in which no request is the mark itself and no task of the open batch asks again at the very clock value at which the handler was started; StaleAnswer, StaleAnswerEarly and MarkAsRequest show that just these fail.
- ServiceInvariant.RunInv: a requesting task is not killed; push_ready would reset its t_blockedby, and do_yield would block it again without the service knowing.
- SchedJoins.JoinWakes: for a task that is not killed; KillSwallowsWakeUp shows how a kill swallows the wake-up.
- Chunked.ChunkedRoundTrip: for blocks below 0x100000 bytes; which larger blocks come back is told, by BlockLimit, for responses of one block only.
- JsonRoundTrip.RoundTrip: for integers below 10^14 in magnitude, byte strings, hole-free arrays and tables with string keys; a nil at the top comes back as null.
- Scheduler.Tasklet.Block: not inside a signal handler, where the source would block with a second do_yield on top of the first.
- Scheduler.Tasklet.Finish: without the error raised for an exception in the coroutine, and without the exit from a handler that reap_task arranges.
- Scheduler.Tasklet.ResumeList: for any number of generations of the ready list, which is a parameter, as tasks that queue one another for ever keep the loop of the source from ending; the state TERM and quit are left out.
- Scheduler.Tasklet.StartTask: not for the object of a task that has already run, nor for the joinable start that StartKeepsAccounts is about.
- Scheduler.Tasklet.KillTask: a task that kills itself runs its handler in the source, and nothing happens here; the error code EINTR, which push_ready resets, is not set.
- Scheduler.Tasklet.Join: not with a signal pending, for which JoinKeepsAccounts tells what the step does.
- Channels.Channel.Read: by a task in its own code, not in a signal handler or from the event loop, where a read that finds a message would not need to block; the field t_blockedby, and that a read without a ring returns no second value when it takes the message of a writer, are left out.
- Channels.Channel.Write: by a task in its own code, likewise.
- Services.MultiService.Serve: the end of the interval that the owner waits for is a step that may happen at any time, without a timer behind it.
- Services.MultiService.Pass: waking is a flag of the task and of the owner, not tied to the ready list of the scheduler; error slots are left out, as push_ready resets t_err.
- JsonEncoder.DecimalFits: for integers below 10^14, not for the other forms of %.14g.
- JsonEncoder.Encoder.AppendObject: number keys from 10^14 on in magnitude are refused.
- JsonEncoder.Encoder.AppendData: numbers are integers below 10^14 in magnitude.
- JsonParser.Parser.NextToken: fractions, exponents, inf, nan and hexadecimal numbers, which strtod reads, are errors.
- JsonParser.Parser.ProcessValue: likewise.
- JsonParser.DecodeText: likewise; the positions and words of error messages and the limits of the Lua stack are left out.
- Buffers.Buffer.PutList: without the format letters that the source skips.
- Buffers.Buffer.GetList: likewise.
- Streams.StreamChannel.OnEvent: the event loop resumes the task that an event has woken before the next event, so a task that was woken is not killed before it runs; a second event would overwrite the line held for it.
- Streams.StreamChannel.Read: how long a read may still wait is a parameter, as is what the kernel brings; the task is resumed by the channel or by its timer only; the error codes EBADF and ch_err are one outcome.
- Streams.StreamChannel.Resume: the error code that a failed write wakes the task with is not carried, only the state of the channel.
- Chunked.Connection.Write: without errors of the connection, which close it in the source, and without compression.
- Chunked.ReadContent: on a connection that ends after the bytes it brings, without errors and time-outs; without chunk sizes that tonumber accepts beyond hexadecimal digits, and without the bound that the receive buffer sets to the length of a line.

Not modelled:

- Timer queue: keys that are not numbers; the sentinel is a node of its own where the source takes the tree object; the test at rbtree.lua:174-178 whose first branch cannot be taken.
- Scheduler: reap_task, event handlers and epoll, a change of the clock during a pass, and the loop of calc_waittime around resume_timedout. The code of a task is an arbitrary finite sequence of steps; what it computes besides is not modelled.
- Services: single services, and several services sharing the chains through svc_next; the handler may fill its slots with anything. That the owner blocks on something else inside its handler, which changes its t_blockedby, and that a pass which still finds it blocked by the service then wakes that other wait, is not modelled.
- JSON: configuration calls.
- String buffer: append_fmt and append_fmt_retry, debugging statistics.
- Byte buffer: memory that is still NULL is an array without elements; the byte behind the data that getline reads before it tests for the end; getlstr, getb, getw and the writer.
- Stream channel: connecting, the waiting of writers, and the event flags.
- MD5: the hexadecimal text of the digest; the table of constants is taken as it stands, and shifts that join bytes to words are written as multiplication and addition.
- URL coding: splitting and building URLs.
- C integers wider than a field do not overflow, and memory does not run out.
