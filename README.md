# event-wait in Dafny

This project models the three synchronisation objects of the event-wait
library and proves properties about them:

- **`NodeContainer`** (`node_container.dfy`, module `NodeContainers`) is the
  intrusive doubly linked FIFO list. It has a permanent sentinel `head`, a
  movable `tail`, and nodes holding `value`, `prev` and `next`. The model is
  a heap class over `Node` objects. Its ghost chain `nodes` and its ghost
  element sequence `contents` say exactly what each of these does:
  `push`, `remove` (including the throw on the sentinel),
  `isEmpty` and `popFirst`.
- **The wait event** (`wait_event.dfy`, module `WaitEvents`) is the
  manual-reset event of `createWaitEventObject`. It holds the flag `isSet`
  and the current `donePromise`. Between operations that promise is either
  pending or already settled `true`, because a `false` settlement is always
  immediately followed by a new promise. Every `wait` call is a waiter with
  a fresh id. The model records which waiters are suspended, which gave a
  timeout, and what each resolved with. A pure state machine (`WaitStep`,
  `SetStep`, `ClearStep`, `DestroyStep`, `TimeoutStep`, run over event
  traces by `Run`) is the specification. The class `WaitEvent` holds the
  closure variables, and each of its methods is proved to perform one step
  of that machine.
- **The counting gate** (`consumer_producer.dfy`, module
  `ConsumerProducer`) is `createConsumerProducerEventObject`: a count
  `productCnt` of banked units plus the FIFO `onEmptyConsume` of suspended
  consumers. The class `ConsumerProducerEvent` keeps the queue as a real
  `NodeContainer`. A suspended consume holds its `consumeNode`, which is
  what its timeout path unlinks. Each method is proved to perform one step
  of the pure machine `ConsumeStep`, `ProduceStep` or `TimeoutStep`. The
  invariant `Inv` proved for that machine gives these properties:
  - no unit is banked while anyone waits;
  - units are conserved;
  - hand-offs go in arrival order;
  - a consumer without a timeout only ever resolves `true`.

  The method `HandOffThenTimeout` is a client run of the class alone: two
  timed consumes suspend, a `produce` hands its unit to the first, and the
  second then times out.

`wrappers.dfy` holds `Option`, used for `popFirst`'s `null`, and `Result`,
used for the string `remove` throws.

## Model

| member | source | states |
|---|---|---|
| NodeContainers.AppendNode | src/node-container.ts:7-11 | after the call `node.next` is `next` and `next.prev` is `node`, and `next` is returned; for distinct nodes the other two links are untouched |
| NodeContainers.Node.constructor | src/node-container.ts:13-19 | a new node carries its value and is linked to nothing |
| NodeContainers.NodeContainer.constructor | src/node-container.ts:24-27 | a new list is just the sentinel: `head` is `tail` and there are no elements |
| NodeContainers.NodeContainer.Push | src/node-container.ts:28-30 | the element is appended at the end, its fresh node is returned and becomes `tail`, and the chain stays a well-formed doubly linked list |
| NodeContainers.NodeContainer.Remove | src/node-container.ts:31-43 | fails with "cannot remove root head node." exactly when `node.prev` is null (sentinel or detached node), changing nothing; otherwise removes exactly that element and keeps the order of the others, returns its value, moves `tail` back when the tail was removed, and leaves the node outside the chain with null links |
| NodeContainers.NodeContainer.IsEmpty | src/node-container.ts:44-46 | true exactly when the list holds no element |
| NodeContainers.NodeContainer.PopFirst | src/node-container.ts:47-50 | on an empty list returns None and changes nothing; otherwise returns the first element and leaves the rest in order (FIFO) |
| WaitEvents.WaitEvent.constructor | src/wait-event.ts:25-26 | a new event is unset, its promise pending, with no waiter |
| WaitEvents.WaitEvent.ResumeWaiters | src/wait-event.ts:28-32 | once the current promise is settled true every suspended waiter resolves true; on a pending promise they keep waiting |
| WaitEvents.WaitEvent.Wait | src/wait-event.ts:35-48 | performs `WaitStep`: a set flag or a promise already settled true (after `_destroy`) resolves the waiter true at once and registers nothing; otherwise the waiter is suspended, and recorded as timed when a timeout is given |
| WaitEvents.WaitEvent.IsSet | src/wait-event.ts:49-51 | returns the flag; when it is up, the promise is settled true and nobody is suspended |
| WaitEvents.WaitEvent.Set | src/wait-event.ts:52-55 | performs `SetStep`: the flag is up and no waiter remains suspended |
| WaitEvents.WaitEvent.Clear | src/wait-event.ts:56-62 | performs `ClearStep`: the flag is down and the suspended waiters are exactly those before |
| WaitEvents.WaitEvent.Destroy | src/wait-event.ts:63-68 | performs `DestroyStep`: the flag is down and no waiter remains suspended |
| WaitEvents.WaitEvent.Timeout | src/wait-event.ts:43-47 | a suspended timed waiter whose timer wins resolves false and stops waiting |
| WaitEvents.StepInv | src/wait-event.ts:35-68 | every operation keeps the invariant: a set flag means a settled promise, nobody waits on a settled promise, and an untimed waiter only resolves true |
| WaitEvents.RunInv | src/wait-event.ts:25-68 | every trace from an invariant state ends in an invariant state |
| WaitEvents.WaitWhenSet | src/wait-event.ts:36-38 | `wait` on a set event resolves true at once and registers no waiter |
| WaitEvents.WaitWhenUnset | src/wait-event.ts:40-44 | `wait` on an unset event with a pending promise suspends exactly one new waiter, which is timed iff a timeout was given |
| WaitEvents.SetBroadcasts | src/wait-event.ts:52-55 | `set` wakes every suspended waiter with true, keeps every earlier result, and resolves nobody else |
| WaitEvents.ClearReArms | src/wait-event.ts:56-62 | `clear` lowers the flag, installs a pending promise and releases nobody |
| WaitEvents.DestroyReleases | src/wait-event.ts:63-68 | `_destroy` lowers the flag, yet releases every suspended waiter with true, keeps earlier results and resolves nobody else |
| WaitEvents.DestroyIdempotent | src/wait-event.ts:63-68 | destroying twice is the same as destroying once |
| WaitEvents.TimeoutResolvesFalse | src/wait-event.ts:43-47 | a timed-out waiter resolves false; the flag, the promise and every other result are unchanged |
| WaitEvents.PendingUntilReleased | src/wait-event.ts:28-32 | a suspended waiter stays suspended through any trace without `set`, `_destroy` or its own timeout, so any number of `clear` calls never release it |
| WaitEvents.ClearedWaiterWokenBySet | src/wait-event.ts:56-62 | a waiter suspended before any `clear` calls still resolves true on the next `set` |
| WaitEvents.DestroyedStaysSettled | src/wait-event.ts:63-68 | after `_destroy`, the promise stays settled true until a `clear` |
| WaitEvents.WaitAfterDestroy | src/wait-event.ts:35-42 | after `_destroy` and before any `clear`, an untimed `wait` resolves true at once even though the flag is down |
| WaitEvents.FlagIsLatest | src/wait-event.ts:52-67 | `isSet` is whatever the most recent `set`, `clear` or `_destroy` left it |
| WaitEvents.ResolvedStaysResolved | src/wait-event.ts:19-22 | a waiter resolves at most once: a recorded result never changes |
| WaitEvents.UntimedResolvesTrue | src/wait-event.ts:28-32 | in every run from a fresh event, a waiter without a timeout that resolved resolved true |
| WaitEvents.TwoWaitersOneSet | src/wait-event.ts:52-55 | two waiters suspended on a fresh event both resolve true on one `set` |
| ConsumerProducer.ConsumerProducerEvent.constructor | src/consumer-producer-event.ts:9-11 | a new gate banks `initialProducts` units and has an empty queue |
| ConsumerProducer.ConsumerProducerEvent.Consume | src/consumer-producer-event.ts:13-26 | performs `ConsumeStep`: with a banked unit it takes it and resolves true without a node; otherwise the waiter's node is appended to the queue and returned |
| ConsumerProducer.ConsumerProducerEvent.Suspend | src/consumer-producer-event.ts:18-20 | with no banked unit, a fresh waiter is pushed at the tail of `onEmptyConsume` and its `consumeNode` is returned |
| ConsumerProducer.ConsumerProducerEvent.Produce | src/consumer-producer-event.ts:27-34 | performs `ProduceStep`: banks a unit when nobody waits, otherwise hands it to the front waiter, whose node alone leaves the chain behind the root |
| ConsumerProducer.ConsumerProducerEvent.HandOff | src/consumer-producer-event.ts:33 | pops the front waiter of a non-empty queue and resolves it true; the chain keeps the root and every other node in order |
| ConsumerProducer.ConsumerProducerEvent.Timeout | src/consumer-producer-event.ts:20-24 | the timer of a queued timed waiter wins: it leaves the queue and resolves false (`TimeoutStep`), and its node is no longer in the chain and has null links; the other nodes stay in the chain in order, so a later waiter can still time out |
| ConsumerProducer.ConsumeInv | src/consumer-producer-event.ts:13-26 | `consume` keeps the gate invariant |
| ConsumerProducer.ProduceInv | src/consumer-producer-event.ts:27-34 | `produce` keeps the gate invariant |
| ConsumerProducer.TimeoutInv | src/consumer-producer-event.ts:20-24 | the timeout path keeps the gate invariant |
| ConsumerProducer.RunInv | src/consumer-producer-event.ts:9-36 | every trace from an invariant state ends in one: never a banked unit while someone waits, queue in arrival order, queued waiters unresolved, units conserved |
| ConsumerProducer.ConsumeImmediate | src/consumer-producer-event.ts:14-17 | with a banked unit, `consume` takes one, resolves true and leaves the queue alone |
| ConsumerProducer.ConsumeEnqueues | src/consumer-producer-event.ts:18-20 | with none banked, `consume` queues exactly one fresh, unresolved waiter at the tail, timed iff a timeout was given, and banks nothing |
| ConsumerProducer.ProduceBanksOrHandsOff | src/consumer-producer-event.ts:27-34 | `produce` banks a unit iff nobody waits; otherwise the front waiter, still unresolved, resolves true and the count is unchanged |
| ConsumerProducer.TimeoutRemovesOnlyItself | src/consumer-producer-event.ts:21-24 | a timeout removes exactly its own waiter from the queue, which resolves false; every other queued waiter stays and the count is unchanged |
| ConsumerProducer.ProducedCounted | src/consumer-producer-event.ts:27-34 | the ghost tally of produced units equals the number of `produce` calls in the trace |
| ConsumerProducer.Conservation | src/consumer-producer-event.ts:9-34 | initial units plus `produce` calls equal the consume calls that resolved true plus what is still banked; those calls are exactly the immediate consumes and the hand-offs |
| ConsumerProducer.StepTally | src/consumer-producer-event.ts:13-34 | every operation keeps the number of consume calls resolved true equal to the immediate consumes plus the hand-offs |
| ConsumerProducer.RunTally | src/consumer-producer-event.ts:9-36 | that count stays balanced through every trace from an invariant state |
| ConsumerProducer.FifoHandOff | src/consumer-producer-event.ts:19-33 | units are handed to waiters in arrival order, never ahead of one still queued, and each hand-off resolves true |
| ConsumerProducer.TimedOutConsumeLeavesNoResidue | src/consumer-producer-event.ts:20-31 | a consume that timed out leaves no trace: the next unit is banked and taken by a later consume |
| ConsumerProducer.SuspendedConsumeGetsHandOff | src/consumer-producer-event.ts:18-33 | a suspended consume is resolved true by the next `produce`, and nothing is banked |

## Left out

- Time is not modelled. `breakableSleepMs` (src/utils.ts), `setTimeout`, the keep-alive `setInterval` and `Promise.race` are left out. A timeout is the separate `Timeout` operation, enabled only while its waiter is still suspended (wait event) or queued (gate).
- The `EventEmitter` and promise plumbing are modelled only by their effect. A `false` settlement is immediately followed by a new `donePromise`, so the model keeps just "pending" or "settled true".
- Microtask order is not modelled. Every suspended waiter's continuation (the loop of `awaitDonePromise`, src/wait-event.ts:30) is assumed to run before the next operation on the event. A `wait` after `_destroy` therefore resolves true at once even with a timeout, because the settled promise wins the race against a timer.
- WaitEvents.DestroyReleases: the model releases every suspended waiter at the moment of `_destroy` (`DestroyStep`). In the code a waiter is released only when its continuation re-reads `donePromise`. If `clear()` runs in the same synchronous turn, it has already replaced that promise with a pending one (src/wait-event.ts:61). So after `wait(); _destroy(); clear();` the code leaves the waiter suspended, and a timed waiter later resolves false; the model resolves both true.
- WaitEvents.SetBroadcasts: the model settles every suspended waiter true at the moment of `set` (`SetStep`, and `ClearedWaiterWokenBySet` for a waiter that had seen `clear`). In the code the waiter's continuation re-reads `donePromise` only after the synchronous turn ends (src/wait-event.ts:30). If `clear()` runs again in that turn, it has installed a new pending promise (src/wait-event.ts:59-61). So after `wait(); clear(); set(); clear();` the code leaves the waiter suspended; the model resolves it true.
- In the gate, the per-call wait event is not an object of its own. Its `set()` is the waiter resolving true, and `p._destroy()` on the timeout path has no effect within this model. In the code it also clears the keep-alive `setInterval` (src/wait-event.ts:20, 66).
- The race in which a waiter's timer fires after `produce` already handed it a unit is left out. `remove` of an already detached node would throw there, and the model simply has no such timeout.
- The sentinel's `null as unknown as T` value is an arbitrary value of `T`.
- NodeContainers.NodeContainer.Remove: requires `node` to be in this list or detached (`prev` null). A node of another list would corrupt both lists, which this model does not describe.
- JavaScript numbers are unbounded integers here; `productCnt` never approaches 2^53.
- The re-exports of src/index.ts are not part of this model. Among them is `ignorePromiseResolutionHaltExit`, which src/wait-event.ts as given does not define.
- `_destroy` does not retire the event for good: a later `clear()` installs a fresh pending promise (src/wait-event.ts:61), and the model does the same (`DestroyedStaysSettled` holds only until a `clear`).
- The gate's `consume` and `produce` are each split into two methods: `Suspend` is the suspending half of `consume` and `HandOff` the `popFirst()!.set()` half of `produce`. This keeps every proof small; the behaviour is that of the single functions.
