# BytePS scheduled queue, modelled in Dafny

This project models `BytePSScheduledQueue`, the per-stage task queue of a
BytePS worker. Each communication stage (REDUCE, PCIE_REDUCE, PUSH, PULL,
COPYH2D, BROADCAST) owns one queue. Producers add partition tasks with
`addTask`. Consumers poll `getTask()` or `getTask(key)` and later call
`reportFinish`.

- **Pending list and credit dequeue.** `_sq` is a plain FIFO list.
  `getTask()` walks it in order and skips three kinds of entry: those whose
  ready event is not ready, those longer than the remaining credit when the
  queue is credit-controlled, and those whose key the readiness table
  reports not ready. It removes the first entry that survives and returns
  it. When a readiness table is bound it clears that key in the table, and
  when the queue is credit-controlled it debits the entry's length from the
  credit; outside the signal root's REDUCE queue nothing is debited.
  `reportFinish` refunds the credit, again only under credit control. `getTask(key)` removes the first entry
  with a given key, and only queues without credit control may call it.
- **Credit rule.** Credit control applies only to the REDUCE queue of the
  signal root. A credit multiplier of zero switches it off. The budget is
  the partition bound times the multiplier; queues without credit control
  get a 32 GiB sentinel.
- **PUSH time window.** Gradient entries of PUSH and PULL queues go into an
  ordered multiset `_ms`. On a PUSH queue, `getTask()` serves the head of
  `_ms` while the current window has room. An expired window refills
  `dynamic_size` and moves on to the next entry of `durations`.
  `reportFinish` counts completions in `_dooropen` while `_meetzero` holds,
  up to 11. Nothing in this file sets `_meetzero`.

The class `Queue.ScheduledQueue` is the imperative model: one field per
modelled field of the C++ class and one method per modelled member
function. The fields and functions listed under "## Left out" are omitted,
and the two paths of `getTask()` are split into the helper methods
`ServeGradient` and `TakePending`. Its contracts
are stated against pure functions in the other modules. The lemmas prove
the properties of those functions:

- `Scan`: the filters and the first-eligible choice of `getTask()`, and the
  keyed walk of `getTask(key)`.
- `Order`: `_ms` as an ordered list, with `insert` and `lower_bound`.
- `Config`: the constructor's credit rule.
- `Ledger`: credit accounting across runs of dispatches and completions.
- `PushWindow`: the PUSH window step and the `_dooropen` counter.

Some behaviour of the code as written follows from these contracts:

- `_sq` is never re-sorted. Among entries that pass the filters, dispatch
  follows insertion order, not priority.
- On the PUSH path the head of `_ms` is returned but not erased, with its
  event cleared. Later calls can return the same entry again while the
  window has room. Once the window list is used up, every call returns it.
- Gradient entries on a PULL queue go into `_ms`. No path of `getTask()`
  returns them, and `pendingSize()` does not count them.

Three facts about the code shape the model:

- `addTask` appends to `_sq` and never re-sorts it, even under credit
  control.
- Only a REDUCE queue is ever credit-controlled. A PUSH queue never is.
- This file has no staging buffer and no emission-order drain. The PUSH
  path consists of the time window above and the `_dooropen` counter, and
  this file only ever writes that counter.

## Model

| member | source | states |
|---|---|---|
| `Tasks.Dispatched` | byteps/common/scheduled_queue.cc:229 | a returned task differs from the queued entry only in its ready event, which is null |
| `Seqs.RemoveAt` | byteps/common/scheduled_queue.cc:224 | `erase` removes exactly one copy of the chosen entry (multiset), and the others keep their relative order |
| `Seqs.ContainsAt` | byteps/common/scheduled_queue.cc:107 | the name check `find(sub) != npos` holds exactly when `sub` occurs at some position of the name |
| `Scan.FirstEligible` | byteps/common/scheduled_queue.cc:203-220 | the chosen entry has no pending event, fits in credit when scheduled, and has a ready key when a table is bound; every earlier entry fails one of these; no choice means no entry passes |
| `Scan.KeyedLookup` | byteps/common/scheduled_queue.cc:242-248 | the keyed walk stops at the first entry with the key (all earlier keys differ), or at the first pending event met before it (check failure), or finds nothing, and then every key differs and every event allows |
| `Order.LowerBound` | byteps/common/scheduled_queue.cc:158 | `lower_bound` gives the first position not ordered before the priority; every earlier entry is ordered before it |
| `Order.UpperBound` | byteps/common/scheduled_queue.cc:108 | insertion point: every earlier entry is not after the new priority, and the entry there is after it |
| `Order.Insert` | byteps/common/scheduled_queue.cc:108 | `_ms.insert` adds exactly the new entry to the multiset. The entry lands at the upper bound of its priority: after every entry it is not ordered before, and before the first entry it is ordered before. Removing it there gives back the old list |
| `Order.InsertKeepsSorted` | byteps/common/scheduled_queue.cc:108 | for a strict-order comparator, insertion keeps `_ms` ordered |
| `Order.LowerBoundFinds` | byteps/common/scheduled_queue.cc:154-167 | for a total order on priorities, `lower_bound` reaches the first entry of a priority whenever the multiset holds one |
| `Config.CreditInPartition` | byteps/common/scheduled_queue.cc:32-35 | the multiplier is the override when one is set, otherwise group size + 1, which is at least 1 |
| `Config.IsScheduled` | byteps/common/scheduled_queue.cc:26-38 | credit control holds iff the queue is REDUCE on the signal root and the multiplier is not 0. This covers the default multiplier, a non-zero override and an override of 0 |
| `Config.InitialCredits` | byteps/common/scheduled_queue.cc:32-43 | the budget is partition bound times the override when one is set, and partition bound times (group size + 1) otherwise. A credit-controlled queue can hold at least one full partition. Without credit control the budget is 32 GiB |
| `Config.TableFor` | byteps/common/scheduled_queue.cc:44-102 | each readiness table is bound exactly on its own stage under its role condition: REDUCE and BROADCAST on the signal root, PCIE_REDUCE across PCIe switches on the CPU-reducer root, PUSH on the root device, COPYH2D off it. PULL and other stages get none |
| `Ledger.Debit` | byteps/common/scheduled_queue.cc:221-223 | a dispatch never raises the credit, moves it only on a credit-controlled queue, and leaves it non-negative when the task fits |
| `Ledger.Refund` | byteps/common/scheduled_queue.cc:271-273 | a completion never lowers the credit, moves it only on a credit-controlled queue, and a dispatch of the same length takes it back |
| `Ledger.RefundUndoesDebit` | byteps/common/scheduled_queue.cc:271-273 | `reportFinish` of a task gives back exactly the credit `getTask()` took for it |
| `Ledger.Apply` | byteps/common/scheduled_queue.cc:221-223 | one admitted dispatch or one completion keeps credit plus bytes in flight constant, and keeps credit non-negative |
| `Ledger.CreditBound` | byteps/common/scheduled_queue.cc:210-223 | over any run of admitted dispatches and matched completions, credit stays non-negative, bytes in flight stay within the budget, and the two add up to the budget |
| `PushWindow.Step` | byteps/common/scheduled_queue.cc:176-201 | in a live window the head is served iff its length is below `dynamic_size`, and serving spends that length and leaves some size over. No room changes nothing. The window expires iff the clock passed `next_timer` with windows left. It then refills, advances the pointer, and adds the next duration to `next_timer` only while the pointer is below `duration_ptr_len`. The pointer never passes `duration_ptr_len`. A used-up window list always serves |
| `PushWindow.LiveWindowBudget` | byteps/common/scheduled_queue.cc:176-190 | within one live window, however many calls, the window does not move and the bytes released plus the size left equal the size the window started with. If that size was positive the bytes released stay strictly below it; otherwise nothing is released |
| `PushWindow.DoorAfterFinish` | byteps/common/scheduled_queue.cc:274-278 | a completion raises `_dooropen` by one iff `_meetzero` holds and it is below 11, and never raises it past 11 |
| `PushWindow.DoorSaturates` | byteps/common/scheduled_queue.cc:274-278 | n completions raise the counter to min(start + n, 11) under `_meetzero` and leave it alone otherwise |
| `Readiness.ReadyTable.ClearReadyCount` | byteps/common/scheduled_queue.cc:218 | clearing makes exactly that key not ready |
| `Queue.ScheduledQueue.constructor` | byteps/common/scheduled_queue.cc:24-103 | credit control and initial credit follow the credit rule; the readiness table bound depends on stage and role; the vgg19 profile sets `duration_ptr` to 1 and the step's first gradient name |
| `Queue.ScheduledQueue.AddTask` | byteps/common/scheduled_queue.cc:105-123 | gradients of PUSH/PULL queues go into `_ms` in order and record `_tensor_part[-priority]`; the step's first gradient restarts the window list at `now`; other entries are appended to `_sq`; an empty name fails the check |
| `Queue.ScheduledQueue.FindTask` | byteps/common/scheduled_queue.cc:154-167 | returns `end()` or the first entry of the asked priority, the `lower_bound` position, with no earlier entry of that priority; for a total order on priorities, `end()` only when no entry has it |
| `Queue.ScheduledQueue.GetTask` | byteps/common/scheduled_queue.cc:169-236 | PUSH with gradients: new window state and result as the window step decides, with the head kept in `_ms`; otherwise the first eligible entry is removed and returned, its key alone is cleared, credit is debited only when scheduled; with no eligible entry nothing changes |
| `Queue.ScheduledQueue.ServeGradient` | byteps/common/scheduled_queue.cc:173-201 | the PUSH path's new window state and result are those of the window step; a served head stays in `_ms` with its event cleared |
| `Queue.ScheduledQueue.TakePending` | byteps/common/scheduled_queue.cc:203-235 | removes and returns the first eligible entry of `_sq`, clears only its key, debits only when scheduled; nothing changes when no entry is eligible |
| `Queue.ScheduledQueue.GetTaskByKey` | byteps/common/scheduled_queue.cc:238-262 | fails on a credit-controlled queue; otherwise removes and returns the first entry with the key, returns nothing with `_sq` unchanged, or fails the event check, as the keyed walk decides |
| `Queue.ScheduledQueue.PendingSize` | byteps/common/scheduled_queue.cc:264-267 | the length of `_sq` alone, truncated to 32 bits |
| `Queue.ScheduledQueue.ReportFinish` | byteps/common/scheduled_queue.cc:269-281 | refunds the task's length only when scheduled; on PUSH applies the capped `_dooropen` bump; the credit invariant is kept |

## Left out

- The mutex in every member function. Each method is one atomic step.
- Environment reads and global lookups (`getenv`, `atoi`, `BytePSGlobal`).
  They become the `Config.Env` parameter of the constructor, and the
  readiness tables become the `Tables` parameter.
- A negative `BYTEPS_SCHEDULING_CREDIT`, which wraps around in `size_t`,
  and 64-bit overflow of the initial credit product. The override is a
  natural number and products are unbounded.
- The floating-point backward-time profile: `_backward_exec`, its scaling
  by batch size and `B`, `_grad_checkpoint`, `_init_pointer`, `_pointer`,
  `expected_priority` and `duration`. Only the constructor touches them,
  reading some of them to compute others (`_grad_checkpoint[_pointer]`,
  the batch-size and `B` scaling of `_backward_exec`); no scheduling path
  reads them.
- `recorderTs` (no method models it) and logging. Profiling timestamps and
  log lines have no effect on scheduling.
- The clock. `getSystemTime()` becomes the `now` argument of `AddTask` and
  `GetTask`.
- The inside of the readiness table and of ready events. The table is a
  key-to-flag map. A ready event is a per-task snapshot, a three-valued
  field fixed when the task is added. Nothing in the model can make a
  waiting entry ready later.
- The initial values the class declaration gives `dynamic_size`,
  `max_dynamic_size`, `durations`, `duration_ptr_len`, `duration_ptr`,
  `next_timer`, `timer`, `begin_name`, `_meetzero` and `_dooropen`. The
  declaration is not part of this model, so they are constructor
  parameters, held as integers, a sequence and a string.
- The `_ms` comparator, which the declaration defines. It is a given
  relation on priorities, required to be a strict order. Any tie-break on
  other fields is not modelled, so entries of equal priority keep insertion
  order.
- PushWindow.Step: the test `len < dynamic_size` is taken as a comparison
  of signed integers. The declarations of `len` and `dynamic_size` are not
  part of this model. If `len` is unsigned, the source compares unsigned,
  and a negative `dynamic_size` reads as huge. A used-up window list can
  drive `dynamic_size` below 0, and `addTask` of the step's first gradient
  does not reset it. The model then answers "no room" where an unsigned
  comparison would serve.
- Integer widths: keys are unbounded naturals, and the 32-bit overflow of
  `priority * -1` is not modelled.
- Process termination on a failed `BPS_CHECK`. It is the `Fatal` result.
  After a fatal `AddTask` the contract no longer promises the class
  invariant.
