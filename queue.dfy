/** `BytePSScheduledQueue`: one queue per pipeline stage. Entries wait in
    the pending list `_sq` (plain FIFO) or, for gradients on PUSH and PULL
    queues, in the ordered multiset `_ms`. `getTask()` hands out the first
    pending entry that passes the readiness and credit filters, or on a PUSH
    queue with gradients waiting, the head of `_ms` as the time window
    allows; `reportFinish` gives the credit back. Every call runs under the
    queue's mutex, so each method here is one atomic step. */
module Queue {
  import opened Wrappers
  import opened Tasks
  import opened Seqs
  import Scan
  import Order
  import Config
  import Ledger
  import PushWindow
  import opened Readiness

  /** The initial values of the fields the class declaration initialises;
      the constructor overrides some of them. */
  datatype HeaderInit = HeaderInit(
    dynamicSize: int,
    maxDynamicSize: int,
    durations: seq<int>,
    durationPtrLen: int,
    durationPtr: int,
    nextTimer: int,
    timer: int,
    beginName: string,
    meetZero: bool,
    doorOpen: int)

  /** The process-wide readiness tables the constructor can bind. */
  datatype Tables = Tables(
    reduce: ReadyTable,
    pcieReduce: ReadyTable,
    push: ReadyTable,
    copy: ReadyTable,
    broadcast: ReadyTable)

  function TableOf(role: Config.TableRole, tables: Tables): ReadyTable? {
    match role
    case NoTable => null
    case ReduceTable => tables.reduce
    case PcieReduceTable => tables.pcieReduce
    case PushTable => tables.push
    case CopyTable => tables.copy
    case BroadcastTable => tables.broadcast
  }

  /** The name of the first gradient of a step under the vgg19 profile. */
  const VggBeginName: string :=
    "DistributedGradientDescentOptimizer_Push_Pull/BytePSPushPull_gradients_resnet50_fc1000_BiasAdd_grad_tuple_control_dependency_1_0"

  const GradientMarker: string := "gradient"

  class ScheduledQueue {
    const qt: QueueType
    const isScheduled: bool
    var credits: int
    const rt: ReadyTable?
    var sq: seq<Task>
    var ms: seq<Task>
    const msLess: Order.Less
    var tensorPart: map<int, int>

    var timer: int
    var nextTimer: int
    var durationPtr: int
    var dynamicSize: int
    const maxDynamicSize: int
    const durations: seq<int>
    const durationPtrLen: int
    const beginName: string

    const meetZero: bool
    var doorOpen: int

    ghost predicate Valid()
      reads this
    {
      && Order.StrictOrder(msLess)
      && Order.Sorted(ms, msLess)
      && PushWindow.WellFormed(Schedule())
      && 1 <= |durations|
      && 0 <= durationPtr
      && (forall t <- sq :: t.name != [])
      && (isScheduled ==> credits >= 0)
    }

    function Schedule(): PushWindow.Schedule {
      PushWindow.Schedule(maxDynamicSize, durations, durationPtrLen)
    }

    function WindowView(): PushWindow.Window
      reads this
    {
      PushWindow.Window(dynamicSize, durationPtr, nextTimer)
    }

    function TableView(): Scan.TableView
      reads this, rt
    {
      if rt == null then None else Some(rt.ready)
    }

    /** `getTask()` serves from `_ms`: a PUSH queue with gradients waiting. */
    predicate ServesGradients()
      reads this
    {
      qt == Push && |ms| > 0
    }

    /** `addTask` keeps the entry in `_ms` rather than `_sq`. */
    predicate RoutesToMultiset(t: Task) {
      (qt == Push || qt == Pull) && Contains(t.name, GradientMarker)
    }

    constructor (qt: QueueType, env: Config.Env, tables: Tables, init: HeaderInit, msLess: Order.Less)
      requires Order.StrictOrder(msLess)
      requires 1 <= |init.durations| && 0 <= init.durationPtrLen <= |init.durations|
      requires 0 <= init.durationPtr
      ensures Valid()
      ensures this.qt == qt && this.msLess == msLess
      ensures isScheduled == Config.IsScheduled(qt, env)
      ensures credits == Config.InitialCredits(qt, env)
      ensures rt == TableOf(Config.TableFor(qt, env), tables)
      ensures sq == [] && ms == [] && tensorPart == map[]
      ensures var vgg := qt == Push && env.model == Some("vgg19");
              && durationPtr == (if vgg then 1 else init.durationPtr)
              && beginName == (if vgg then VggBeginName else init.beginName)
      ensures dynamicSize == init.dynamicSize && maxDynamicSize == init.maxDynamicSize
      ensures durations == init.durations && durationPtrLen == init.durationPtrLen
      ensures nextTimer == init.nextTimer && timer == init.timer
      ensures meetZero == init.meetZero && doorOpen == init.doorOpen
    {
      var scheduled := qt == Reduce && env.isSignalRoot;
      var creditInPartition: nat := env.groupSize + 1;
      if env.creditOverride.Some? {
        creditInPartition := env.creditOverride.value;
      }
      if creditInPartition == 0 {
        scheduled := false;
      }
      this.qt := qt;
      isScheduled := scheduled;
      credits := if scheduled then env.partitionBound * creditInPartition else Config.UnlimitedCredits;
      rt := TableOf(Config.TableFor(qt, env), tables);
      this.msLess := msLess;
      sq, ms, tensorPart := [], [], map[];
      dynamicSize, maxDynamicSize := init.dynamicSize, init.maxDynamicSize;
      durations, durationPtrLen := init.durations, init.durationPtrLen;
      nextTimer, timer := init.nextTimer, init.timer;
      meetZero, doorOpen := init.meetZero, init.doorOpen;
      if qt == Push && env.model == Some("vgg19") {
        beginName := VggBeginName;
        durationPtr := 1;
      } else {
        beginName := init.beginName;
        durationPtr := init.durationPtr;
      }
    }

    /** `addTask(entry)`: a gradient on a PUSH or PULL queue goes into `_ms`
        and records its tensor's partition count under `-priority`; the
        first gradient of a step (its name contains `begin_name`) restarts
        the window list at time `now`. Every other entry is appended to
        `_sq`. An empty name fails the check made after the insertion. */
    method AddTask(t: Task, now: int) returns (r: Outcome<()>)
      requires Valid()
      modifies this`sq, this`ms, this`tensorPart, this`timer, this`durationPtr, this`nextTimer
      ensures r.Ok? <==> t.name != []
      ensures r.Fatal? ==> r.violation == EmptyName
      ensures r.Ok? ==> Valid()
      ensures RoutesToMultiset(t) ==>
                && sq == old(sq)
                && ms == Order.Insert(old(ms), t, msLess)
                && tensorPart == old(tensorPart)[-t.priority := t.totalPartnum]
      ensures !RoutesToMultiset(t) ==>
                sq == old(sq) + [t] && ms == old(ms) && tensorPart == old(tensorPart)
      ensures RoutesToMultiset(t) && Contains(t.name, beginName) ==>
                timer == now && durationPtr == 0 && nextTimer == now + durations[0]
      ensures !(RoutesToMultiset(t) && Contains(t.name, beginName)) ==>
                timer == old(timer) && durationPtr == old(durationPtr) && nextTimer == old(nextTimer)
    {
      if RoutesToMultiset(t) {
        Order.InsertKeepsSorted(ms, t, msLess);
        ms := Order.Insert(ms, t, msLess);
        tensorPart := tensorPart[t.priority * -1 := t.totalPartnum];
        if Contains(t.name, beginName) {
          timer := now;
          durationPtr := 0;
          nextTimer := timer + durations[durationPtr];
        }
      } else {
        sq := sq + [t];
      }
      if t.name == [] {
        return Fatal(EmptyName);
      }
      return Ok(());
    }

    /** `findTask(priority)`: the position of the first entry of `_ms` with
        that priority (the `lower_bound` of it), or `|ms|` for `_ms.end()`.
        For a total order on priorities, `end()` means no entry has the
        priority. */
    method FindTask(p: int) returns (it: nat)
      requires Valid()
      ensures it <= |ms|
      ensures it < |ms| ==> ms[it].priority == p
      ensures it < |ms| ==> it == Order.LowerBound(ms, p, msLess)
      ensures it < |ms| ==> forall k :: 0 <= k < it ==> ms[k].priority != p
      ensures Order.Total(msLess) && it == |ms| ==> forall k :: 0 <= k < |ms| ==> ms[k].priority != p
    {
      var lb := Order.LowerBound(ms, p, msLess);
      if lb == |ms| {
        it := lb;
      } else if ms[lb].priority != p {
        it := |ms|;
      } else {
        it := lb;
      }
      if Order.Total(msLess) && it == |ms| {
        forall k | 0 <= k < |ms|
          ensures ms[k].priority != p
        {
          if ms[k].priority == p {
            Order.LowerBoundFinds(ms, p, msLess, k);
          }
        }
      }
    }

    /** `getTask()` at time `now`. On a PUSH queue with gradients waiting it
        follows the time window: it may return the head of `_ms` (which
        stays in `_ms`, with its event cleared). Otherwise it takes out of
        `_sq` the first entry that passes the filters, clears that key in the
        readiness table, and debits its length when credit-controlled; when
        no entry passes, nothing changes. */
    method GetTask(now: int) returns (task: Option<Task>)
      requires Valid()
      modifies this`sq, this`credits, this`ms, this`dynamicSize, this`durationPtr, this`nextTimer, rt
      ensures Valid()
      ensures old(ServesGradients()) ==>
                var (w, d) := PushWindow.Step(old(WindowView()), Schedule(), now, old(ms)[0].len);
                && WindowView() == w
                && sq == old(sq) && credits == old(credits)
                && (rt != null ==> rt.ready == old(rt.ready))
                && (d == PushWindow.Served ==>
                      task == Some(Dispatched(old(ms)[0])) && ms == old(ms)[0 := Dispatched(old(ms)[0])])
                && (d != PushWindow.Served ==> task == None && ms == old(ms))
      ensures !old(ServesGradients()) ==>
                && ms == old(ms) && WindowView() == old(WindowView())
                && match Scan.FirstEligible(old(sq), old(credits), isScheduled, old(TableView()))
                   case None =>
                     && task == None && sq == old(sq) && credits == old(credits)
                     && (rt != null ==> rt.ready == old(rt.ready))
                   case Some(i) =>
                     && task == Some(Dispatched(old(sq)[i]))
                     && sq == RemoveAt(old(sq), i)
                     && credits == Ledger.Debit(isScheduled, old(credits), old(sq)[i].len)
                     && (rt != null ==> rt.ready == old(rt.ready)[old(sq)[i].key := false])
    {
      if qt == Push && |ms| > 0 {
        task := ServeGradient(now);
      } else {
        task := TakePending();
      }
    }

    /** The PUSH path of `getTask()`: serve the head of `_ms` while the
        window has room, or refill and advance an expired window. */
    method ServeGradient(now: int) returns (task: Option<Task>)
      requires Valid() && ServesGradients()
      modifies this`ms, this`dynamicSize, this`durationPtr, this`nextTimer
      ensures Valid()
      ensures var (w, d) := PushWindow.Step(old(WindowView()), Schedule(), now, old(ms)[0].len);
              && WindowView() == w
              && (d == PushWindow.Served ==>
                    task == Some(Dispatched(old(ms)[0])) && ms == old(ms)[0 := Dispatched(old(ms)[0])])
              && (d != PushWindow.Served ==> task == None && ms == old(ms))
    {
      var head := ms[0];
      if now <= nextTimer || durationPtr == durationPtrLen {
        if head.len < dynamicSize || durationPtr == durationPtrLen {
          dynamicSize := dynamicSize - head.len;
          ms := ms[0 := Dispatched(head)];
          assert forall k :: 0 <= k < |ms| ==> ms[k].priority == old(ms)[k].priority;
          task := Some(Dispatched(head));
        } else {
          task := None;
        }
      } else {
        dynamicSize := maxDynamicSize;
        durationPtr := durationPtr + 1;
        if durationPtr < durationPtrLen {
          nextTimer := nextTimer + durations[durationPtr];
        }
        task := None;
      }
    }

    /** The pending-list path of `getTask()`: walk `_sq` in order and take
        the first entry that passes every filter. */
    method TakePending() returns (task: Option<Task>)
      requires Valid()
      modifies this`sq, this`credits, rt
      ensures Valid()
      ensures match Scan.FirstEligible(old(sq), old(credits), isScheduled, old(TableView()))
              case None =>
                && task == None && sq == old(sq) && credits == old(credits)
                && (rt != null ==> rt.ready == old(rt.ready))
              case Some(i) =>
                && task == Some(Dispatched(old(sq)[i]))
                && sq == RemoveAt(old(sq), i)
                && credits == Ledger.Debit(isScheduled, old(credits), old(sq)[i].len)
                && (rt != null ==> rt.ready == old(rt.ready)[old(sq)[i].key := false])
    {
      var i := 0;
      var found := false;
      while i < |sq| && !found
        invariant 0 <= i <= |sq|
        invariant found ==> i < |sq| && Scan.Passes(sq[i], credits, isScheduled, TableView())
        invariant forall j :: 0 <= j < i ==> !Scan.Passes(sq[j], credits, isScheduled, TableView())
        decreases |sq| - i, !found
      {
        var t := sq[i];
        var skip := t.readyEvent == Waiting
                    || (isScheduled && t.len > credits)
                    || (rt != null && !rt.IsKeyReady(t.key));
        if skip {
          i := i + 1;
        } else {
          found := true;
        }
      }
      if !found {
        return None;
      }
      var t := sq[i];
      if rt != null {
        rt.ClearReadyCount(t.key);
      }
      if isScheduled {
        credits := credits - t.len;
      }
      sq := RemoveAt(sq, i);
      assert t.name != [];
      return Some(Dispatched(t));
    }

    /** `getTask(key)`: only allowed on a queue without credit control. It
        takes out of `_sq` the first entry with the key; every entry it
        walks past, and the match itself, must have no event or a ready one,
        otherwise the check fails. */
    method GetTaskByKey(key: Key) returns (r: Outcome<Option<Task>>)
      requires Valid()
      modifies this`sq
      ensures Valid()
      ensures isScheduled ==> r == Fatal(KeyedGetOnScheduledQueue) && sq == old(sq)
      ensures !isScheduled ==>
                match Scan.KeyedLookup(old(sq), key)
                case Found(i) => r == Ok(Some(Dispatched(old(sq)[i]))) && sq == RemoveAt(old(sq), i)
                case Missing => r == Ok(None) && sq == old(sq)
                case Blocked(_) => r == Fatal(EventNotReady) && sq == old(sq)
    {
      if isScheduled {
        return Fatal(KeyedGetOnScheduledQueue);
      }
      var i := 0;
      while i < |sq|
        invariant 0 <= i <= |sq|
        invariant sq == old(sq)
        invariant forall j :: 0 <= j < i ==> sq[j].key != key && Scan.EventAllows(sq[j])
      {
        var t := sq[i];
        if t.readyEvent == Waiting {
          return Fatal(EventNotReady);
        }
        if t.key == key {
          sq := RemoveAt(sq, i);
          assert t.name != [];
          return Ok(Some(Dispatched(t)));
        }
        i := i + 1;
      }
      return Ok(None);
    }

    /** `pendingSize()`: the length of `_sq` as a 32-bit unsigned value;
        entries waiting in `_ms` are not counted. */
    method PendingSize() returns (n: nat)
      ensures n == |sq| % 0x1_0000_0000
      ensures |sq| < 0x1_0000_0000 ==> n == |sq|
    {
      n := |sq| % 0x1_0000_0000;
    }

    /** `reportFinish(task)`: a credit-controlled queue takes the task's
        length back; a PUSH queue counts the completion in `_dooropen`, up
        to its limit, once `_meetzero` holds. */
    method ReportFinish(t: Task)
      requires Valid()
      modifies this`credits, this`doorOpen
      ensures Valid()
      ensures credits == Ledger.Refund(isScheduled, old(credits), t.len)
      ensures doorOpen == if qt == Push then PushWindow.DoorAfterFinish(old(doorOpen), meetZero) else old(doorOpen)
    {
      if isScheduled {
        credits := credits + t.len;
      }
      if qt == Push {
        if meetZero {
          if doorOpen < PushWindow.DoorLimit {
            doorOpen := doorOpen + 1;
          }
        }
      }
    }
  }
}
