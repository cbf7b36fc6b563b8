# Alyrn, modelled and verified in Dafny

Alyrn is a C++ coroutine runtime with an epoll and an io_uring backend.  This
project models the parts of it whose correctness depends on more than one
function or on more than one event, and proves what they promise: for every
input, every history of an object, or every interleaving of the events
involved.  Code that updates objects in place is modelled by classes whose
methods do the same updates; each is proved against a specification on plain
values, about which the whole-run theorems are proved.

`dafny verify dfyconfig.toml` checks everything.

| files | component |
|---|---|
| `RedBlackShape`, `RedBlackLinks`, `IntrusiveTree` | the intrusive red-black tree with one sentinel |
| `TimerIndex`, `TimerTable`, `TimerStore`, `UringTimers`, `EpollTimers` | the timer index and both timer queues |
| `ChannelModel`, `ChannelHistory`, `ChannelRuns`, `ChannelAnswers`, `ChannelExchange`, `Ring` | channels and select |
| `FramePool`, `FrameLayout`, `FrameDispatch` | the coroutine frame pool, and which way a frame is freed |
| `StreamModel`, `UringStream` | deadline, cancellation and close of an io_uring stream |
| `ByteBuffer` | the byte buffer |
| `RecvControl`, `RecvWaiting`, `RecvSource`, `RecvFindings` | the io_uring receive source |
| `LoopPost`, `LoopQueues` | posting to a loop, and its two work queues |
| `Options`, `Powers` | options; powers of two and bit masks |

How to read the models:

- **Tree.**  `RedBlackShape` is the theory on values: trees, paths to a hole
  (`Plug(path, subtree)` is the whole tree), rotations and the cases of both
  fix-ups.  `RedBlackLinks` says when the hooks of a set of nodes spell out
  such a tree (`Holds`), with the sentinel as every leaf and as the cache of
  the root and the minimum.  `IntrusiveTree` is the class; `Elements()` is its
  sorted sequence, and `Valid()` holds the whole red-black invariant.
- **Timers.**  `TimerTable` is the theory on values: registry, sorted index,
  running callback, and the rules of a pass over the due timers.  `TimerStore`
  keeps the registry and the red-black tree in step with such a table, and both
  queues work on a `TimerStore`.
- **Channels.**  A blocking send or receive is an operation with one case, a
  Select one with several.  `ChannelModel` gives the steps and the invariant
  `Good`; `ChannelHistory` the exact accounts of who sent and who received
  each value (`Recorded`); `ChannelRuns` the theorems about all runs;
  `ChannelAnswers` says outright what every event does (`Effects`), and what the
  events and answers of a run tell about its end; the
  class `Exchange` does the steps in place, registration by registration, with
  one power-of-two ring per channel.
- **Kernel and other threads** are nondeterministic: what the kernel answers
  (`submitted`, `accepted`, `granted`, the order of completions), what
  callbacks do and what other threads do in between are parameters or events.
- **The receive source** keeps its flags and counters in one record; what each
  call does to it is a function in `RecvControl`, and the class keeps payloads,
  slots and kernel buffers in step with it.
- **What callers know.**  Each machine is tied to the events of its runs and to
  the answers that callers got, without its own histories: `EventsTell` and
  `NonblockingExact` for channels, `GivenBackIsFree` for the frame pool,
  `EventsTell` and `ClosedByEvents` for streams, `EventsTell` for posting.
- **Histories** (`log`, `accepted`, `ran`, ...) are ghost fields or components
  of a model's state that no decision depends on.

## Findings

- The self check of the tree asks for strictly increasing keys, while `Insert`
  accepts elements that are equivalent to others and keeps the tree sorted.
  `SelfCheckOfValid` gives the exact condition: on a tree that meets its
  invariant the self check succeeds if and only if no two elements are
  equivalent.  `InsertEquivalent` gives the family of inputs that makes it
  fail.  The timers are not affected, since their identities break all ties.
- The receive source loses a payload when the kernel completes it while a
  consumer waits, nothing is queued, the source is active, and the application
  holds every copy slot: the admission refuses the delivery, and the source
  stops with an error, although the comment beside that code promises that
  completed bytes are never dropped.  `Source.OnData` states when a payload is
  lost, as an exact condition on the state before the call; `LosesPayload`
  performs a history that gets there.  A consumer that gets a clean end of
  stream has lost nothing.
- A consumer that waits on a receive source can be left waiting for good.
  `LeftBehindExactly` gives the exact condition, over all that can happen next:
  no run of calls and completions serves it if and only if no receive request is
  in the ring and the source has ended, or is paused and has recorded an error
  (`LeftBehind`).  In a completion that ends the source the consumer is told only
  if no copy slot is lent; later nobody tells it, so a consumer that holds a slot
  and waits never sees the ordinary end of the stream (`StrandsByEnd`).  A cancel
  request with an unexpected result records an error and stops nothing, so a
  paused source never resumes and never reports the error.  Each operation of
  `Source` states exactly when it leaves a consumer behind, and exactly when it
  leaves one with no completion and no slot outstanding (`Abandoned`, which
  `AbandonedExactly` spells out).  The methods `StrandsBy...` perform a history on
  a new source for each operation that can do the latter: `ReturnSlot`,
  `RequestStop`, `OnCancelDone`, `Next` and `OnNoData`.  `OnData` never does.
- A timer of the io_uring queue can be late.  Where the kernel refuses to move a
  timeout, a second timeout stands in for it, and while that one is in the ring no
  request is made for a timer that is earlier than both.  `UringTimers.AddTimer`
  states exactly when a timer added meanwhile is served in time;
  `LateBehindFallback` performs a history in which it is not.
- An operation of an io_uring stream that is past its deadline can be left
  uncancelled: if the cancel request could not be submitted and a new deadline is
  set before the retry, the retry is stale and no timer is armed any more.
  `RetryExactly` gives the exact condition over all that can happen next;
  `StuckAfterNewDeadline` performs the history.
- When a receive source cannot be resumed, it serves its waiting consumer from
  inside the very call that is about to serve that consumer.
  `Source.DeliverNextIfReady` shows that this never takes the consumer away
  from the outer call, because at most one payload is there at that moment and
  a copy slot is lent.

## Model

| member | source | states |
|---|---|---|
| RedBlackShape.LogarithmicHeight | include/alyrn/detail/intrusive_rbtree.h:394-465 | a red-black tree of n elements has height at most 2 log2(n + 1) |
| RedBlackShape.RotateInverse | include/alyrn/detail/intrusive_rbtree.h:364-391 | right rotation undoes left rotation and the other way round |
| RedBlackShape.InorderDrop | include/alyrn/detail/intrusive_rbtree.h:346-362 | splicing out a node removes exactly that element from the sequence |
| RedBlackLinks.RotateLHolds | include/alyrn/detail/intrusive_rbtree.h:364-376 | the link writes of a left rotation, at any depth, turn hooks that spell the tree into hooks that spell the rotated tree |
| RedBlackLinks.RotateRHolds | include/alyrn/detail/intrusive_rbtree.h:378-391 | the same for the right rotation |
| IntrusiveRbTree.IntrusiveTree.constructor | include/alyrn/detail/intrusive_rbtree.h:173-178 | an empty tree meets the invariant |
| IntrusiveRbTree.IntrusiveTree.Earliest | include/alyrn/detail/intrusive_rbtree.h:199-201 | the cached minimum is the head of the sequence, null when empty |
| IntrusiveRbTree.IntrusiveTree.Minimum | include/alyrn/detail/intrusive_rbtree.h:313-321 | the node found has no left child and is the first element of the subtree |
| IntrusiveRbTree.IntrusiveTree.Next | include/alyrn/detail/intrusive_rbtree.h:323-344 | the node found is the in-order successor, the sentinel at the end |
| IntrusiveRbTree.IntrusiveTree.Transplant | include/alyrn/detail/intrusive_rbtree.h:346-362 | which hooks change, the root cache included |
| IntrusiveRbTree.IntrusiveTree.LeftRotate | include/alyrn/detail/intrusive_rbtree.h:364-376 | the hooks spell the rotated tree; the order of the elements is unchanged |
| IntrusiveRbTree.IntrusiveTree.RightRotate | include/alyrn/detail/intrusive_rbtree.h:378-391 | the hooks spell the rotated tree; the order of the elements is unchanged |
| IntrusiveRbTree.IntrusiveTree.InsertFixup | include/alyrn/detail/intrusive_rbtree.h:393-465 | ends, and leaves a red-black tree with the same elements in the same order |
| IntrusiveRbTree.IntrusiveTree.InsertStep | include/alyrn/detail/intrusive_rbtree.h:398-463 | one turn moves the only red-red spot up and keeps order and black heights |
| IntrusiveRbTree.IntrusiveTree.Descend | include/alyrn/detail/intrusive_rbtree.h:489-498 | the place found is behind all elements not above the key and in front of all others |
| IntrusiveRbTree.IntrusiveTree.Insert | include/alyrn/detail/intrusive_rbtree.h:467-526 | the sequence becomes the stable sorted insertion; refused, without effect, for null and linked nodes; the invariant is kept |
| IntrusiveRbTree.IntrusiveTree.DeleteStepLeft | include/alyrn/detail/intrusive_rbtree.h:539-580 | one turn on the left ends the black shortage or moves it up, order unchanged |
| IntrusiveRbTree.IntrusiveTree.DeleteStepRight | include/alyrn/detail/intrusive_rbtree.h:581-620 | one turn on the right ends the black shortage or moves it up, order unchanged |
| IntrusiveRbTree.IntrusiveTree.DeleteFixup | include/alyrn/detail/intrusive_rbtree.h:528-623 | ends, also from the sentinel, and leaves a red-black tree with the same elements |
| IntrusiveRbTree.IntrusiveTree.RemoveOuter | include/alyrn/detail/intrusive_rbtree.h:658-675 | removing a node with at most one child drops exactly its element; the tree is red-black or short of one black at the orphan |
| IntrusiveRbTree.IntrusiveTree.RemoveInner | include/alyrn/detail/intrusive_rbtree.h:676-732 | removing a node with two children splices in its successor and drops exactly its element |
| IntrusiveRbTree.IntrusiveTree.Erase | include/alyrn/detail/intrusive_rbtree.h:625-747 | exactly the given element leaves the sequence, its hook is cleared, the invariant and the cached minimum are kept |
| IntrusiveRbTree.IntrusiveTree.PopFirst | include/alyrn/detail/intrusive_rbtree.h:777-790 | the head leaves the sequence |
| IntrusiveRbTree.IntrusiveTree.ExtractPrefix | include/alyrn/detail/intrusive_rbtree.h:749-790 | exactly the longest prefix that satisfies the predicate is removed, in order, and its hooks are cleared |
| IntrusiveRbTree.IntrusiveTree.Clear | include/alyrn/detail/intrusive_rbtree.h:792-832 | ends with an empty tree and every hook cleared |
| IntrusiveRbTree.IntrusiveTree.HeaderOf | include/alyrn/detail/intrusive_rbtree.h:260-282 | the walk over parent links finds the header of the node's tree and nothing else |
| IntrusiveRbTree.IntrusiveTree.CheckNode | include/alyrn/detail/intrusive_rbtree.h:845-871 | the local checks succeed exactly if colour, links and bounds are right at this node |
| IntrusiveRbTree.IntrusiveTree.CheckSubtree | include/alyrn/detail/intrusive_rbtree.h:835-892 | succeeds exactly on balanced subtrees with keys strictly inside the bounds, and then reports their black height, size and minimum |
| IntrusiveRbTree.IntrusiveTree.CheckInvariants | include/alyrn/detail/intrusive_rbtree.h:894-916 | on any hooks that spell a tree: true exactly if it is red-black, strictly increasing, of the recorded size and with the right cached minimum |
| IntrusiveRbTree.SelfCheckOfValid | include/alyrn/detail/intrusive_rbtree.h:835-916 | on a valid tree the self check succeeds if and only if no two elements are equivalent |
| IntrusiveRbTree.InsertEquivalent | include/alyrn/detail/intrusive_rbtree.h:489-498 | inserting an equivalent element always leaves the set that the self check accepts |
| IntrusiveRbTree.NoEquivalents | include/alyrn/detail/intrusive_rbtree.h:858-867 | among sorted elements, strictly increasing keys mean that no two are equivalent |
| TimerIndex.TimerOrder | include/alyrn/detail/timer_index.h:18-26 | the comparison is a strict weak order: by expiration, then by identity |
| TimerIndex.InsertAgrees | include/alyrn/detail/timer_index.h:47-49 | sorted insertion into the tree is insertion into the timer table's index |
| TimerIndex.EraseAgrees | include/alyrn/detail/timer_index.h:51-53 | removing a node is removing its timer from the index |
| TimerIndex.OrderAgrees | include/alyrn/detail/timer_index.h:18-30 | sorted as a tree and sorted as an index are the same, ties being broken by identity |
| TimerIndex.TimerIndex.Insert | include/alyrn/detail/timer_index.h:47-49 | the red-black tree does the index insertion of the timer table |
| TimerIndex.TimerIndex.Erase | include/alyrn/detail/timer_index.h:51-53 | the red-black tree does the index removal of the timer table |
| TimerIndex.TimerIndex.Earliest | include/alyrn/detail/timer_index.h:55-61 | the earliest timer is the head of the index |
| TimerTable.InsertSorted | include/alyrn/detail/timer_index.h:47-49 | insertion keeps the index sorted by expiration and identity |
| TimerTable.AddedOk | src/uring/timer_queue.cc:44-58 | adding keeps registry and index equal and no cancelled timer comes back |
| TimerTable.AddErase | src/uring/timer_queue.cc:60-66 | taking back a timer just added restores the table |
| TimerTable.ErasedOk | src/uring/timer_queue.cc:79-92 | cancelling keeps registry and index equal, and the cancelled timer is gone for good |
| TimerTable.MarkedOk | src/epoll/timer_queue.cc:107-111 | cancelling from inside the timer's own callback: it is not started again |
| TimerTable.UnknownOk | src/uring/timer_queue.cc:79-82 | cancelling a timer that is neither registered nor running a repeating callback: it is not started again either |
| TimerTable.PoppedOk | src/uring/timer_queue.cc:166-178 | the timer that starts leaves registry and index together, and it is none that was cancelled |
| TimerTable.RearmedOk | src/uring/timer_queue.cc:183-197 | a repeating timer comes back unless it was cancelled meanwhile |
| TimerTable.PassPopped | src/epoll/timer_queue.cc:118-136 | in one pass timers run once each, only when due, and those present at the start in expiry order |
| TimerTable.PassRearmed | src/epoll/timer_queue.cc:132-137 | a timer armed again at now plus its interval is not due again in this pass |
| TimerTable.PassDone | src/epoll/timer_queue.cc:118-149 | when a pass stops with nothing due, every timer due at its start has run or was cancelled; with later timers only, it runs no more than were due |
| TimerTable.InPassRearmed | src/epoll/timer_queue.cc:124-143 | after a callback a repeating timer is registered an interval after now, unless it was cancelled, and so are all that ran before it in the pass |
| TimerStore.TimerStore.Add | src/uring/timer_queue.cc:49-58 | registry and tree together do the table's addition |
| TimerStore.TimerStore.Erase | src/epoll/timer_queue.cc:93-99 | the timer found in the registry leaves registry and tree together; all others stay in both |
| TimerStore.TimerStore.Pop | src/uring/timer_queue.cc:168-183 | the timer that starts is the least of the tree, and leaves tree and registry together |
| TimerStore.TimerStore.Rearm | src/uring/timer_queue.cc:185-196 | a repeating timer not cancelled meanwhile comes back to both with its new expiration, on the same node |
| TimerStore.TimerStore.Earliest | include/alyrn/detail/timer_index.h:55-61 | the head of the table's index, from the tree's cached minimum |
| UringTimers.UringTimers.Arm | src/uring/timer_queue.cc:226-237 | submitted only while the driver request is not in the ring; the kernel gets the deadline that is recorded |
| UringTimers.UringTimers.ArmFallback | src/uring/timer_queue.cc:239-254 | submitted only while the control request is not in the ring; the kernel gets the given deadline |
| UringTimers.UringTimers.Update | src/uring/timer_queue.cc:256-271 | submitted only while the control request is not in the ring; the kernel gets the deadline that is remembered for its completion |
| UringTimers.UringTimers.Reconcile | src/uring/timer_queue.cc:206-224 | exactly which request is made for the earliest timer; on success it is covered, and in time unless the control request was in the ring; on failure no request changed |
| UringTimers.UringTimers.AddTimer | src/uring/timer_queue.cc:44-68 | a success registers exactly the new timer and covers it; exactly when it is in time while the control request is in the ring; a failure restores timers and requests |
| UringTimers.UringTimers.Cancel | src/uring/timer_queue.cc:70-92 | found exactly if the timer is registered or its repeating callback runs; in every case, also for a timer that cancels itself from its only callback, it is never started again |
| UringTimers.UringTimers.Fire | src/uring/timer_queue.cc:170-196 | one callback keeps registry, index and the rules of the pass, and every timer it adds is added if the kernel takes the request, every timer it cancels is cancelled; the timer is armed again at now plus its interval exactly if it repeats and was not cancelled |
| UringTimers.UringTimers.ProcessExpired | src/uring/timer_queue.cc:166-197 | the timers due at `now` are started in order, each once, and all of them unless cancelled; those that repeat and were not cancelled are registered again, an interval later, the others are gone; what the callbacks add and cancel takes effect; bounded if callbacks add later timers only |
| UringTimers.UringTimers.OnDriver | src/uring/timer_queue.cc:126-139 | an expiry starts the due timers in order, each once, all of them unless cancelled, and repeats exactly those that repeat; an early end starts none; afterwards the earliest timer is covered or the loop stops |
| UringTimers.UringTimers.OnControl | src/uring/timer_queue.cc:141-164 | the same for the fallback timeout; after an update the earliest timer is in time or the loop stops; a refused update is replaced by a second timeout |
| UringTimers.LateBehindFallback | src/uring/timer_queue.cc:206-224 | a history of a new queue after which the earliest timer is before both timeouts in the kernel |
| EpollTimers.EpollTimers.AddTimer | src/epoll/timer_queue.cc:80-90 | exactly the new timer is added to registry and index, and the timerfd is no later than the earliest timer |
| EpollTimers.EpollTimers.Cancel | src/epoll/timer_queue.cc:92-112 | a registered timer is gone and a running one marked; in every case it is never started again; coverage is kept; others are untouched |
| EpollTimers.EpollTimers.Fire | src/epoll/timer_queue.cc:124-143 | one callback keeps registry, index and the rules of the pass, and every timer it adds or cancels is added or cancelled; the timer is armed again at now plus its interval exactly if it repeats and was not cancelled |
| EpollTimers.EpollTimers.HandleRead | src/epoll/timer_queue.cc:118-149 | the due timers are started in order, each once, and all of them unless cancelled; those that repeat and were not cancelled are registered again, an interval later, the others are gone; what the callbacks add and cancel takes effect; the timerfd covers the earliest timer afterwards |
| Powers.MaskWraps | include/alyrn/coro/channel.h:382-398 | masking with a power of two less one is the remainder |
| Ring.MaskStep | include/alyrn/coro/channel.h:368-387 | the mask of the rounded-up ring steps to the next slot and wraps |
| Ring.Ring.constructor | include/alyrn/coro/channel.h:368-375 | an empty ring of the exact logical capacity, also for 0 and for sizes that are no power of two |
| Ring.Ring.Push | include/alyrn/coro/channel.h:382-387 | appends to the contents, whatever the position of the wrap-around |
| Ring.Ring.Pop | include/alyrn/coro/channel.h:389-398 | takes the first value, at any wrap position; the slot it was in, like every unused slot, is empty |
| ChannelModel.AcceptGood | include/alyrn/coro/channel.h:130-142 | a send that need not wait keeps the invariant |
| ChannelModel.TakeGood | include/alyrn/coro/channel.h:148-168 | a receive that gets a value, admitting a sender, keeps the invariant |
| ChannelModel.CommitGood | include/alyrn/coro/channel.h:422-461 | a ready case of an operation keeps the invariant |
| ChannelModel.ArmGood | include/alyrn/coro/select.h:409-414 | queueing all cases of an operation keeps the invariant |
| ChannelModel.DropGood | include/alyrn/coro/channel.h:463-489 | destroying a waiting operation keeps the invariant |
| ChannelModel.CloseGood | include/alyrn/coro/channel.h:174-189 | closing keeps the invariant and leaves no receiver behind |
| ChannelHistory.AcceptRecorded | include/alyrn/coro/channel.h:130-142 | the accounts after a send: value, sender and receiver agree with the registrations |
| ChannelHistory.TakeRecorded | include/alyrn/coro/channel.h:148-168 | the accounts after a receive |
| ChannelHistory.CommitRecorded | include/alyrn/coro/select.h:390-407 | the accounts after an operation went ahead |
| ChannelRuns.StepGood | include/alyrn/coro/channel.h:130-189 | every event keeps the invariant |
| ChannelRuns.EveryRun | include/alyrn/coro/select.h:390-415 | invariant and accounts hold in every reachable state, for any number of channels of any capacities |
| ChannelRuns.FirstInFirstOut | include/alyrn/coro/channel.h:130-168 | every run: values received, then buffered, then waiting in queue order, are the values sent, in order, less those withdrawn |
| ChannelRuns.ExactlyOneCase | include/alyrn/coro/select.h:39-60 | every run: exactly the winner took effect, the continuation is scheduled once if the operation waited and never otherwise, a finished operation is in no queue and a queued one has no winner |
| ChannelRuns.Exclusion | include/alyrn/coro/channel.h:400-461 | every run: size within capacity; waiting senders mean full and open; waiting receivers mean empty; closed means no waiters; both sides wait only at capacity 0 and within one operation |
| ChannelRuns.EndOfStream | include/alyrn/coro/channel.h:311-314 | every run: end of stream is reported only by a channel that is closed and empty and stays so |
| ChannelAnswers.StepEffects | include/alyrn/coro/channel.h:130-189 | what every event does, said outright: who gets the value or from whom it comes, who is woken with what, what waits where, who is told of the end, and that nothing else changes |
| ChannelAnswers.NonblockingExact | include/alyrn/coro/channel.h:130-168 | every run: what nonblocking sends put in are, in order, the values of those answered true, and what nonblocking receives took out are the values they were given |
| ChannelAnswers.EventsTell | include/alyrn/coro/select.h:390-415 | every run, from its events alone: which operations there are and with which cases, which are gone, which channels are closed, and their capacities |
| ChannelExchange.Unlink | include/alyrn/coro/channel.h:463-475 | removes exactly the given waiter and says whether it was there |
| ChannelExchange.Choose | include/alyrn/coro/select.h:454-474 | picks the ready case that the draw falls on, none exactly if none is ready |
| ChannelExchange.Exchange.CancelLosers | include/alyrn/coro/select.h:496-511 | every registration but the winner leaves its queue, and each one queued is found there |
| ChannelExchange.Exchange.Finish | include/alyrn/coro/select.h:226-239 | a waiter taken from a queue always wins, so its value is never dropped |
| ChannelExchange.Exchange.PushBuffer | include/alyrn/coro/channel.h:382-387 | pushing onto the channel's ring appends to its buffer and leaves all other channels alone |
| ChannelExchange.Exchange.PopBuffer | include/alyrn/coro/channel.h:389-398 | popping the channel's ring takes the first value of its buffer and leaves all other channels alone |
| ChannelExchange.Exchange.Relieve | include/alyrn/coro/channel.h:150-162 | the next value, and the first sender's value at the end of the ring, or straight from the sender at capacity 0 |
| ChannelExchange.Exchange.TrySend | include/alyrn/coro/channel.h:130-142 | succeeds exactly if a receiver waits or there is room; then the first receiver is woken with the value, or it is at the end of the buffer; otherwise nothing changes; refines the step |
| ChannelExchange.Exchange.TryReceive | include/alyrn/coro/channel.h:148-168 | gives the next value, the end of a closed channel, or nothing; a value leaves the buffer, and the first sender that waits is woken and its value moves up; refines the step |
| ChannelExchange.Exchange.Begin | include/alyrn/coro/select.h:390-415 | suspended exactly if no case is ready and there is no default case; the ready case that the draw falls on takes effect at once, else the first default case, else all cases wait behind the others; refines the step |
| ChannelExchange.Exchange.Await | include/alyrn/coro/channel.h:224-242 | blocking send and receive: suspended exactly if not ready, and then behind all that wait; else the value moves at once; refines the step |
| ChannelExchange.Exchange.Destroy | include/alyrn/coro/channel.h:463-489 | the operation is gone and in no queue, the others keep their places; refines the step |
| ChannelExchange.Exchange.Close | include/alyrn/coro/channel.h:174-189 | the channel is closed and keeps its values; exactly the operations that wait to receive from it are woken, with the end of the stream; refines the step |
| FramePool.StepGood | include/alyrn/coro/frame_allocator.h:360-457 | every atomic step of the owner and of foreign threads keeps the three lists well formed and every slot in exactly one place, and does to the lists what it should |
| FramePool.CasPushGood | include/alyrn/coro/frame_allocator.h:401-407 | a push that succeeds, fails or fails spuriously loses no slot, also if the stack changed and changed back |
| FramePool.SlotsConserved | include/alyrn/coro/frame_allocator.h:388-418 | every interleaving: each slot is in exactly one of handed out, free list, remote stack, stolen chain, a pusher's hands, new chunk |
| FramePool.NeverHandedOutTwice | include/alyrn/coro/frame_allocator.h:440-457 | every interleaving: the slot handed out is one of the pool's that nobody has |
| FramePool.GivenBackIsFree | include/alyrn/coro/frame_allocator.h:401-418 | every interleaving, from its events: in use are exactly the slots handed out and not given back since, by the owner or by a push; every other slot of every chunk is in a list, in the hands of a thread whose push has not succeeded, or still to be linked |
| FramePool.PushAlone | include/alyrn/coro/frame_allocator.h:401-407 | a push that nobody disturbs ends with the slot on top of the remote stack |
| FramePool.SizeClass.PushStep | include/alyrn/coro/frame_allocator.h:401-407 | a foreign thread's step on the fields is that step of the machine, if it is enabled, and nothing otherwise |
| FramePool.SizeClass.DrainRemote | include/alyrn/coro/frame_allocator.h:388-399 | exactly the slots that were on the remote stack move over, in reverse, in front of the free list, while foreign threads do between any two of them what the schedule says |
| FramePool.SizeClass.AddChunk | include/alyrn/coro/frame_allocator.h:360-386 | exactly the slots of the new chunk are linked in, in reverse, in front of the free list, while foreign threads do between any two of them what the schedule says |
| FramePool.SizeClass.Allocate | include/alyrn/coro/frame_allocator.h:440-457 | hands out a slot that nobody has at that moment, with foreign threads at work; a chunk is added only if free list and remote stack were empty |
| FramePool.SizeClass.FreeLocal | include/alyrn/coro/frame_allocator.h:409-418 | the slot is no longer in use and is the first of the free list; nothing else changes |
| FrameLayout.PackRoundTrip | include/alyrn/coro/frame_allocator.h:62-81 | exactly the encodable pairs are packed, into 64 bits, and unpack to themselves |
| FrameLayout.ClassTable | include/alyrn/coro/frame_allocator.h:224-237 | the table gives the smallest class that fits, for every size |
| FrameLayout.FindClass | include/alyrn/coro/frame_allocator.h:340-345 | pooled requests get the smallest class that fits, all others none |
| FrameLayout.IsSlotExactly | include/alyrn/coro/frame_allocator.h:326-338 | accepts exactly the starts of the slots |
| FrameLayout.SlotsFit | include/alyrn/coro/frame_allocator.h:143-147 | the slots of a chunk lie behind its header, inside it, and do not overlap |
| FrameLayout.MapIndexExact | include/alyrn/coro/frame_allocator.h:257-261 | a pointer has the map index of an aligned slab exactly if it points into it |
| FrameLayout.SlabMap.Register | include/alyrn/coro/frame_allocator.h:268-294 | the slab is added; no entry is overwritten |
| FrameLayout.SlabMap.Unregister | include/alyrn/coro/frame_allocator.h:296-309 | the slab is removed; the others stay |
| FrameLayout.SlabMap.Lookup | include/alyrn/coro/frame_allocator.h:311-324 | finds the slab that a pointer lies in, and none exactly if there is none |
| FrameLayout.HeapFrameLayout | include/alyrn/coro/frame_allocator.h:485-518 | header, marker and aligned body are disjoint and in bounds, and the metadata gives back size and alignment |
| FrameLayout.OwnerOf | include/alyrn/coro/frame_allocator.h:183-193 | recognizes exactly the slots of registered slabs, and tells their slab |
| FrameDispatch.BodyEndsInside | include/alyrn/coro/frame_allocator.h:485-512 | the body of a heap frame ends strictly inside its memory, so also an empty frame does not touch the next slot |
| FrameDispatch.HeapFrameNoSlot | include/alyrn/coro/frame_allocator.h:183-193 | a heap frame is no slot of any slab, whether its memory overlaps no slab or lies inside a slot because its resource draws on a pool |
| FrameDispatch.HeapRequestPooled | include/alyrn/coro/frame_allocator.h:459-464 | the pool as a resource takes the request of a frame it refused exactly if the frame is empty and not over-aligned |
| FrameDispatch.SlotGranted | include/alyrn/coro/frame_allocator.h:459-464 | a slot that a pool hands out for a request is memory a heap frame may lie in, and aligned as asked for |
| FrameDispatch.DeallocateFrame | include/alyrn/coro/frame_allocator.h:527-544 | null is ignored, a slot goes to its slab, and all else to the resource that the header behind the marker names |
| FrameDispatch.PoolDeallocate | include/alyrn/coro/frame_allocator.h:466-472 | memory that is a slot goes back to that slot's slab, memory outside all slabs goes upstream |
| FrameDispatch.HeapFrameReturns | include/alyrn/coro/frame_allocator.h:485-544 | round trip: whatever the coroutine wrote into its body, freeing hands exactly the allocation, with its size and alignment, back to its resource |
| FrameDispatch.PooledFrameReturns | include/alyrn/coro/frame_allocator.h:459-544 | round trip of a heap frame, such as an empty one, whose memory is a slot of a pool: freeing hands the slot back to the pool, and the pool to its slab |
| StreamModel.StepOk | src/uring/stream.cc:60-224 | every event, in any order that the kernel can produce, keeps the invariant of a direction |
| StreamModel.FinalizedOnce | src/uring/stream.cc:144-224 | every run: an operation that is over was finalized and resumed exactly once, in order, after its own completion and that of its cancel request |
| StreamModel.TimeoutReported | src/uring/stream.cc:537-549 | every run: a timeout is reported exactly if the deadline handler ran before the result came |
| StreamModel.StaleTimer | src/uring/stream.cc:311-358 | every run: a timer that fires changes nothing unless it was armed for the operation that is running |
| StreamModel.DeadlineTakesEffect | src/uring/stream.cc:311-326 | every run: a current timer that fires while its operation runs uncancelled marks it late, unless its result is there, and its cancel request is out exactly if submitted |
| StreamModel.EventsTell | src/uring/stream.cc:60-224 | every run: the events determine where a direction stands: idle exactly if every operation started is settled and every cancel request completed; every result reported, as a timeout exactly if late; the latest timer live exactly if the last start or new deadline set one |
| StreamModel.RetryExactly | src/uring/stream.cc:345-358 | every run: an expired operation without a cancel request can still get one exactly if the generation for its retry is current; else only its own completion ends it |
| StreamModel.AfterOk | src/uring/stream.cc:861-941 | every event of either direction and of the close keeps the invariant of the stream |
| StreamModel.CloseConverges | src/uring/stream.cc:906-941 | every run: the descriptor is closed at most once and only when no request is owed, neither of a direction nor the cancel-all request; a waiting close is resumed exactly once, by whichever event comes last |
| StreamModel.DirectionsApart | src/uring/stream.cc:861-941 | every run: each direction is where its own events lead it, whatever the other one and the close do |
| StreamModel.ClosedByEvents | src/uring/stream.cc:861-941 | every run, from its events: open exactly if every close was refused; closed exactly if one was not and no request is owed |
| UringStream.Direction.Begin | src/uring/stream.cc:60-86 | registers the operation with clean flags; refused exactly if its deadline has passed or its timer is refused |
| UringStream.Direction.Abort | src/uring/stream.cc:116-128 | takes the registration back |
| UringStream.Direction.Start | src/uring/stream.cc:491-531 | begins exactly if the request and its timer are accepted, with a timer for this operation if there is a deadline; else leaves the direction as it was but for the generation |
| UringStream.Direction.Complete | src/uring/stream.cc:144-158 | finalizes, or hands the continuation to the cancel request that is still out |
| UringStream.Direction.Finalize | src/uring/stream.cc:205-224 | releases the slot and clears the deadline state |
| UringStream.Direction.OnResult | src/uring/stream.cc:537-549 | refines the step; the slot is free exactly if this was the last completion owed, and only then the operation is resumed; the report is whether it was late |
| UringStream.Direction.OnNotification | src/uring/stream.cc:1007-1054 | refines the step for the notification of a zero-copy send; the slot is free exactly if nothing is owed |
| UringStream.Direction.OnCancelDone | src/uring/stream.cc:176-203 | refines the step; resumes exactly if the operation was settled before |
| UringStream.Direction.OnDeadline | src/uring/stream.cc:311-326 | a timer that is due marks the operation late and asks for its cancellation; if the cancel request does not go out it is retried, or the loop stops; any other timer changes nothing; refines the step |
| UringStream.Direction.OnRetry | src/uring/stream.cc:345-358 | a retry that is due sends the cancel request, or is scheduled again, or the loop stops; any other changes nothing; refines the step |
| UringStream.Direction.SetDeadline | src/uring/stream.cc:1306-1314 | refines the step for a new deadline; a running operation that was not told to end gets a timer for it |
| UringStream.StuckAfterNewDeadline | src/uring/stream.cc:1306-1314 | a history of a new direction after which an expired operation has neither a cancel request nor a live timer |
| UringStream.UringStream.Close | src/uring/stream.cc:861-899 | closes at once if nothing is in the way, waits exactly if something is and the cancel-all request went out, and is refused otherwise; refines the step |
| UringStream.UringStream.TryComplete | src/uring/stream.cc:906-923 | closes and resumes exactly if the cancel request is settled and both slots are free |
| UringStream.UringStream.OnCloseDone | src/uring/stream.cc:925-929 | completes the close exactly if it is pending and both slots are free; refines the step |
| UringStream.UringStream.OnResult | src/uring/stream.cc:480-488 | refines the step of the stream: a slot that becomes free may complete the close |
| UringStream.UringStream.OnCancelDone | src/uring/stream.cc:480-488 | the same when the deadline's cancel request comes last |
| UringStream.UringStream.OnNotification | src/uring/stream.cc:1046-1054 | the same when a zero-copy notification comes last |
| ByteBuffer.CommitAppends | include/alyrn/net/buffer.h:280-297 | committing n bytes appends exactly the first n bytes of the reserved ranges, in order |
| ByteBuffer.Buffer.Append | include/alyrn/net/buffer.h:301-315 | appends exactly the given bytes, with at most one new block |
| ByteBuffer.Buffer.Drain | include/alyrn/net/buffer.h:453-468 | drops the first n bytes, or all |
| ByteBuffer.Buffer.PrepareWrite | include/alyrn/net/buffer.h:166-231 | nothing changes for the reader; the ranges are exactly the reserved ones that are not empty, in order, at most `maxIov`, and reach the hint unless they are that many |
| ByteBuffer.Buffer.TryPrepareWriteOne | include/alyrn/net/buffer.h:248-278 | exactly when one range is reserved, and its size |
| ByteBuffer.Buffer.Overwrite | include/alyrn/net/buffer.h:421-436 | writing into the reserved ranges changes nothing for the reader |
| ByteBuffer.Buffer.CommitWrite | include/alyrn/net/buffer.h:280-297 | appends exactly the first n reserved bytes; the inconsistency checks cannot fail |
| ByteBuffer.Buffer.AbortWrite | include/alyrn/net/buffer.h:299 | ends the reservation and changes nothing |
| ByteBuffer.Buffer.MatchesFrom | include/alyrn/net/buffer.h:366-382 | true exactly if the needle occurs there, across blocks and empty blocks |
| ByteBuffer.Buffer.Find | include/alyrn/net/buffer.h:74-98 | the least offset from `from` on at which the needle occurs, none exactly if there is none |
| ByteBuffer.Buffer.Linearize | include/alyrn/net/buffer.h:108-144 | the contents stay, the first n bytes lie in one block, and nothing is copied if they did not span blocks |
| ByteBuffer.Buffer.MoveFrom | include/alyrn/net/buffer.h:480-493 | the contents move and the other buffer is empty |
| RecvControl.CompleteKeeps | include/alyrn/net/detail/recv_source_state.h:75-100 | a recorded completion keeps the counters in bounds; a source that is ending stays so |
| RecvControl.StoppedOk | src/uring/recv_source.cc:416-429 | a stop keeps the counters and ends the source, whether its cancel request went out or not |
| RecvControl.HaltedOk | src/uring/recv_source.cc:392-401 | a pause keeps the counters; if its cancel request fails it is a stop, whose own cancel request may succeed |
| RecvControl.PlacedCases | src/uring/recv_source.cc:459-488 | the four ways of a payload, and that it is refused exactly if it would be delivered directly while every copy slot is in use |
| RecvControl.TookWaits | src/uring/recv_source.cc:595-630 | taking a payload for a consumer never gives that consumer something else meanwhile |
| RecvControl.FinishedRest | src/uring/recv_source.cc:520-560 | after every completion a consumer waits only if there is nothing to give, not even the end |
| RecvControl.ReturnRest | src/uring/recv_source.cc:742-751 | exactly when the return of a slot ends a source on which a consumer waits |
| RecvWaiting.CallKeeps | src/uring/recv_source.cc:36-72 | every call and completion keeps what holds between them: an active source is fit, has room, and has a request unless it lacks free slots; a source stays paused only for a reason |
| RecvWaiting.ArmsExactly | src/uring/recv_source.cc:379-390 | an active source without a request gets one exactly if enough slots are free and the ring takes it; it fails exactly if they are and the ring does not |
| RecvWaiting.ResumesExactly | src/uring/recv_source.cc:403-414 | a paused source is resumed exactly if it has not failed, its cancel request is over, nothing overflows and the queue is down to the threshold |
| RecvWaiting.FullPauses | src/uring/recv_source.cc:541-544 | the payload that fills the queue makes the source cancel its request |
| RecvWaiting.NoDataOutcome | src/uring/recv_source.cc:491-560 | exactly which completions without a payload stop the source, and with an error or not; the others leave it as it is, or ask again |
| RecvWaiting.AbandonedExactly | src/uring/recv_source.cc:403-414 | a consumer waits with nothing outstanding exactly if the source is over, or paused by an error with cancel and slots back |
| RecvWaiting.NextLeaves | src/uring/recv_source.cc:36-72 | exactly when a Next waits for good |
| RecvWaiting.StopLeaves | src/uring/recv_source.cc:363-377 | a stop leaves a waiting consumer behind exactly if no request is in the ring |
| RecvWaiting.ReturnLeaves | src/uring/recv_source.cc:742-751 | exactly when the return of a slot leaves a waiting consumer behind, and with nothing outstanding |
| RecvWaiting.CancelLeaves | src/uring/recv_source.cc:562-569 | exactly when the end of a cancel request leaves a waiting consumer behind, and with nothing outstanding |
| RecvWaiting.DataLeaves | src/uring/recv_source.cc:431-560 | a completion with a payload leaves a waiting consumer behind exactly if it loses the payload, ends the request and a slot is lent |
| RecvWaiting.NoDataLeaves | src/uring/recv_source.cc:491-560 | exactly when a completion without a payload leaves a waiting consumer behind, and with nothing outstanding |
| RecvWaiting.NeverServed | src/uring/recv_source.cc:571-583 | every run: a consumer that is left behind is never served |
| RecvWaiting.CanBeServed | src/uring/recv_source.cc:571-583 | every other waiting consumer is served by some run |
| RecvWaiting.LeftBehindExactly | src/uring/recv_source.cc:571-630 | a consumer is left behind if and only if it waits and no run serves it |
| RecvFindings.LosesPayload | src/uring/recv_source.cc:459-475 | a history of a new source, by its own operations, that loses a payload |
| RecvFindings.StrandsByReturn | src/uring/recv_source.cc:742-751 | a history of a new source after which the return of a slot leaves a consumer waiting on a source that is over |
| RecvFindings.StrandsByEnd | src/uring/recv_source.cc:491-504 | the same for the ordinary end of the stream while a slot is lent: all was delivered, and the end is never reported |
| RecvFindings.StrandsByStop | src/uring/recv_source.cc:363-377 | the same for a stop of a paused source |
| RecvFindings.StrandsByCancel | src/uring/recv_source.cc:562-569 | a history after which an unexpected cancel result leaves a waiting consumer on a source that is paused for good |
| RecvFindings.StrandsByNext | src/uring/recv_source.cc:406-409 | the same for a Next after such a result |
| RecvFindings.StrandsByCompletion | src/uring/recv_source.cc:511-518 | the same for the completion that ends the request of a pausing source after such a result |
| RecvSource.Source.constructor | src/uring/recv_source.cc:193-208 | a new source has every copy slot free |
| RecvSource.Source.EnsureSubmission | src/uring/recv_source.cc:379-390 | a request that cannot be submitted stops the source, and a waiting consumer gets the next result then, never out of order |
| RecvSource.Source.MaybeResume | src/uring/recv_source.cc:403-414 | resumes only a paused source without overflow; the same for a consumer that waits |
| RecvSource.Source.TryTakeNext | src/uring/recv_source.cc:595-630 | gives the oldest payload, queue before overflow; an end or an error only when everything accepted was delivered, and a clean end only if nothing was lost |
| RecvSource.Source.Place | src/uring/recv_source.cc:459-490 | the payload is delivered, queued or kept behind all others, or refused, exactly on the stated condition; the kernel buffer goes back |
| RecvSource.Source.QueueEvent | src/uring/recv_source.cc:632-638 | appends to the queue with a copy slot nobody has |
| RecvSource.Source.KeepOverflow | src/uring/recv_source.cc:757-766 | appends to the overflow; the kernel buffer goes back |
| RecvSource.Source.OnData | src/uring/recv_source.cc:431-560 | delivered, queued and overflowed payloads stay the accepted ones in completion order; exactly when a payload is lost; each kernel buffer is returned before the completion ends; each copy slot is free, queued or lent; what the consumer gets; exactly when it is left behind |
| RecvSource.Source.OnNoData | src/uring/recv_source.cc:491-560 | end and errors lose nothing and are reported only after everything was delivered; exactly which of them stop the source and whether with an error; exactly when a waiting consumer is left behind |
| RecvSource.Source.OnCancelDone | src/uring/recv_source.cc:562-569 | keeps order and conservation; a waiting consumer gets nothing, or the error if the source cannot be resumed; exactly when it is left behind |
| RecvSource.Source.Next | src/uring/recv_source.cc:36-72 | starts an idle source or fails, takes what there is or waits; refused exactly while another Next waits; the end only after everything was delivered; exactly when it waits for good |
| RecvSource.Source.DeliverNextIfReady | src/uring/recv_source.cc:571-583 | a waiting consumer, and no other, gets the next result, and it is still the one waiting when the result is there |
| RecvSource.Source.ReturnSlot | src/uring/recv_source.cc:742-751 | a copy slot comes back exactly once; a waiting consumer gets nothing, or the error if the source cannot receive again; exactly when it is left behind |
| RecvSource.Source.RequestStop | src/uring/recv_source.cc:363-377 | ends the source with a cancel request if one is needed and goes out; exactly when a waiting consumer is left behind |
| LoopPost.ReachedGood | src/epoll/loop.cc:119-167 | every interleaving keeps: accepted is started, batch and queue in order; closed means empty |
| LoopPost.AcceptedRunOnce | src/epoll/loop.cc:137-167 | every interleaving: callbacks are started in the order of acceptance, none twice, all of them by the time the loop has stopped, and per poster in order |
| LoopPost.ClosedRefuses | src/epoll/loop.cc:119-128 | every interleaving: after the close every post is refused and the queue is empty |
| LoopPost.NoLostWakeup | src/epoll/loop.cc:240-272 | every interleaving: while callbacks wait, the descriptor is signalled, a poster is about to signal it, or the owner is about to take the queue |
| LoopPost.EventsTell | src/epoll/loop.cc:119-167 | every interleaving, from its events: accepted is one callback for each post while the queue was open, in order; taken and started are prefixes of that; signals, wakeups owed and the close are as the events say |
| LoopPost.PostQueue.Post | src/epoll/loop.cc:119-135 | accepted exactly while open, and then the callback is the last of the queue; a wakeup is owed exactly if the queue was empty; it is the posting step of the protocol |
| LoopPost.PostQueue.RunPosted | src/epoll/loop.cc:137-146 | starts the whole queue in order, while posters do between any two callbacks what the schedule says; the run is a run of the protocol |
| LoopPost.PostQueue.DrainWakeup | src/epoll/loop.cc:240-256 | drains the descriptor and then starts at least what was posted, under every schedule of the posters |
| LoopPost.PostQueue.DrainPostedAndClose | src/epoll/loop.cc:151-167 | ends under every finite schedule of posters; then the queue is closed and empty and all that was ever accepted has been started, in order |
| LoopQueues.WorkQueues.Next | src/uring/loop.cc:525-541 | a completion first, but after 64 of them only if nothing else is ready |
| LoopQueues.WorkQueues.RunReady | src/uring/loop.cc:518-545 | whatever the items enqueue, at most 256 are run, fewer only if nothing is left; of either queue a prefix of what it held and received, in order; every ready item is run or moves forward by at least 192 places |

## Left out

- Memory layout of the tree hook: the parent word with its two flag bits is three fields here.
- The tree operations that take a callback (`PopWhile` with `on_pop`): the tree model pops with a predicate only; callbacks that add and cancel are modelled in the timer queues.
- IntrusiveRbTree.IntrusiveTree.HeaderOf: the walk gives up after `size` steps as in the source; that it finds the header is stated for a recorded size that is not too small.
- Intrusive links of the waiter and work queues and of the buffer's block list: these are sequences; pushing a node that is already linked is not modelled.
- Panics for contract violations (wrong thread, send on a closed channel, close with waiting senders, second close): these are preconditions.
- The xorshift generator of select: the draw is a parameter.
- Weak memory: atomics are single steps of an interleaving.
- The frame pool has one size class per model; `ReleaseChunks` and the owner binding are left out, and so is the null address check for a chunk at address 0.
- The half-close calls, moves and the destructor of a stream, and the loop that repeats short writes.
- Wrap-around of the 64-bit generation of deadline timers and of timer identities.
- UringTimers.UringTimers.ProcessExpired: serves as many timers as there are callbacks given, because callbacks that keep adding due timers can go on for ever; with later timers only, the number is bounded by the timers due.
- Rounding of the timerfd to at least 100 microseconds and the clock: times are integers and `now` is a parameter.
- The contents of a payload of the receive source, the bytes of its copies and its event ring (a sequence here); the return of kernel buffers that come with an empty or failed completion; the stop awaiter; moves.
- Uninitialised bytes of new buffer blocks are zeros; `ReadableIov`, `ContiguousView` and `DrainAll` of the buffer.
- LoopPost.NoLostWakeup: for the epoll loop; the io_uring loop's poll request on the wakeup descriptor is not modelled.
- Work that callbacks schedule while the loop drains for the last time.
- Tasks, spawning, promise types, results, memory and object pools, endpoints, sockets, listeners, connectors, servers, workers, and the epoll stream and receive source: thread and I/O plumbing around the protocols above, or easier members.
