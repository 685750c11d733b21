/** The constructor's credit rule: which queues are credit-controlled and
    with how much credit they start. The process-wide lookups the
    constructor makes are gathered in `Env`. */
module Config {
  import opened Wrappers
  import opened Tasks

  /** What the constructor reads from the environment and the global state. */
  datatype Env = Env(
    isSignalRoot: bool,            // this device is the signal root of its NCCL group
    groupSize: nat,                // size of the NCCL group
    creditOverride: Option<nat>,   // BYTEPS_SCHEDULING_CREDIT, when set
    partitionBound: nat,           // the partition size bound, in bytes
    isCrossPcieSwitch: bool,
    cpuReducerIsRoot: bool,
    isRootDevice: bool,
    model: Option<string>)         // MODEL, when set

  /** Credit of a queue without credit control: 32 GiB. */
  const UnlimitedCredits: nat := 34359738368

  /** `credit_in_partition`: the override when given, otherwise one more
      than the group size. */
  function CreditInPartition(env: Env): (c: nat)
    ensures env.creditOverride.None? ==> c == env.groupSize + 1 && c >= 1
    ensures env.creditOverride.Some? ==> c == env.creditOverride.value
  {
    match env.creditOverride
    case Some(c) => c
    case None => env.groupSize + 1
  }

  /** `_is_scheduled` after construction: credit control applies to the
      REDUCE queue of the signal root, unless the multiplier is zero. */
  function IsScheduled(qt: QueueType, env: Env): (b: bool)
    ensures b ==> qt == Reduce && env.isSignalRoot
    ensures env.creditOverride.None? ==> (b <==> qt == Reduce && env.isSignalRoot)
    ensures env.creditOverride == Some(0) ==> !b
    ensures env.creditOverride.Some? && env.creditOverride.value != 0 ==> (b <==> qt == Reduce && env.isSignalRoot)
  {
    qt == Reduce && env.isSignalRoot && CreditInPartition(env) != 0
  }

  /** `_credits` after construction. */
  function InitialCredits(qt: QueueType, env: Env): (c: nat)
    ensures IsScheduled(qt, env) && env.creditOverride.None? ==>
              c == env.partitionBound * (env.groupSize + 1)
    ensures IsScheduled(qt, env) && env.creditOverride.Some? ==>
              c == env.partitionBound * env.creditOverride.value
    ensures IsScheduled(qt, env) ==> c >= env.partitionBound
    ensures !IsScheduled(qt, env) ==> c == 32 * 1024 * 1024 * 1024
  {
    if IsScheduled(qt, env) then
      var m := CreditInPartition(env);
      assert env.partitionBound * m == env.partitionBound + env.partitionBound * (m - 1);
      env.partitionBound * m
    else UnlimitedCredits
  }

  /** Which readiness table the constructor binds to `_rt`. */
  datatype TableRole = NoTable | ReduceTable | PcieReduceTable | PushTable | CopyTable | BroadcastTable

  function TableFor(qt: QueueType, env: Env): (r: TableRole)
    ensures qt == Pull || qt == Other ==> r == NoTable
    ensures r == ReduceTable <==> qt == Reduce && env.isSignalRoot
    ensures r == PcieReduceTable <==> qt == PcieReduce && env.isCrossPcieSwitch && env.cpuReducerIsRoot
    ensures r == PushTable <==> qt == Push && env.isRootDevice
    ensures r == CopyTable <==> qt == CopyH2D && !env.isRootDevice
    ensures r == BroadcastTable <==> qt == Broadcast && env.isSignalRoot
  {
    match qt
    case Reduce => if env.isSignalRoot then ReduceTable else NoTable
    case PcieReduce => if env.isCrossPcieSwitch && env.cpuReducerIsRoot then PcieReduceTable else NoTable
    case Push => if env.isRootDevice then PushTable else NoTable
    case CopyH2D => if !env.isRootDevice then CopyTable else NoTable
    case Broadcast => if env.isSignalRoot then BroadcastTable else NoTable
    case Pull => NoTable
    case Other => NoTable
  }
}
