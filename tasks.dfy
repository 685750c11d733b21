/** The entities the scheduled queue works on: the stage a queue serves,
    one queued partition (a `TensorTableEntry`), and the fatal checks the
    queue makes. */
module Tasks {

  /** Partition keys are 64-bit identifiers; only equality is used on them. */
  type Key = nat

  /** The stage kinds the queue constructor distinguishes; every other stage
      kind takes the constructor's `default` branch. */
  datatype QueueType = Reduce | PcieReduce | Push | CopyH2D | Broadcast | Pull | Other

  /** A task's `ready_event`, polled at the moment of a `getTask` call:
      absent (null), not yet ready, or ready. */
  datatype Event = NoEvent | Waiting | Signaled

  /** The fields of a `TensorTableEntry` that the queue reads. */
  datatype Task = Task(
    priority: int,
    key: Key,
    len: nat,            // partition size in bytes
    name: string,        // `tensor_name`
    totalPartnum: int,   // number of partitions of the whole tensor
    readyEvent: Event)

  /** A task as handed to the caller: the queue sets `ready_event` to null. */
  function Dispatched(t: Task): (d: Task)
    ensures d.readyEvent == NoEvent
    ensures d.(readyEvent := t.readyEvent) == t
  {
    t.(readyEvent := NoEvent)
  }

  /** Conditions the queue checks with `BPS_CHECK`; a failed check terminates
      the process. */
  datatype Violation =
    | EmptyName                  // `addTask` of an entry whose name is ""
    | KeyedGetOnScheduledQueue   // `getTask(key)` on a credit-controlled queue
    | EventNotReady              // `getTask(key)` scanned an entry whose event is not ready

  /** The result of an operation that may hit a fatal check. */
  datatype Outcome<+T> = Ok(value: T) | Fatal(violation: Violation)
}
