/** The time-window path `getTask()` takes on a PUSH queue whose gradient
    multiset is not empty, and the `_dooropen` counter `reportFinish` bumps.

    Each window, from the moment `next_timer` was last set, may release
    gradient bytes while they stay below `dynamic_size`; once the clock has
    passed `next_timer` the next call refills `dynamic_size` and moves to
    the next window of `durations`. When the window list is used up
    (`duration_ptr == duration_ptr_len`) every call serves. */
module PushWindow {

  /** The window fields the PUSH path updates. */
  datatype Window = Window(dynamicSize: int, durationPtr: int, nextTimer: int)

  /** The constants of the window list. */
  datatype Schedule = Schedule(maxDynamicSize: int, durations: seq<int>, durationPtrLen: int)

  /** What one call on the PUSH path does. */
  datatype Decision =
    | Served    // the head of `_ms` is returned
    | NoRoom    // the head does not fit in the window's remaining size
    | Expired   // the window is over: refill and advance, return nothing

  predicate WellFormed(sc: Schedule) {
    0 <= sc.durationPtrLen <= |sc.durations|
  }

  predicate Exhausted(w: Window, sc: Schedule) {
    w.durationPtr == sc.durationPtrLen
  }

  /** One `getTask()` on the PUSH path at time `now`, with a head entry of
      `headLen` bytes. */
  function Step(w: Window, sc: Schedule, now: int, headLen: nat): (r: (Window, Decision))
    requires WellFormed(sc) && 0 <= w.durationPtr
    ensures 0 <= r.0.durationPtr
    ensures w.durationPtr <= sc.durationPtrLen ==> r.0.durationPtr <= sc.durationPtrLen
    ensures Exhausted(w, sc) ==> r.1 == Served
    ensures r.1 == Served && !Exhausted(w, sc) ==> 0 < r.0.dynamicSize <= w.dynamicSize
    ensures r.1 == Served ==> r.0.dynamicSize + headLen == w.dynamicSize
    ensures r.1 == NoRoom ==> r.0 == w
    ensures r.1 != Expired ==> r.0.durationPtr == w.durationPtr && r.0.nextTimer == w.nextTimer
    ensures r.1 == Expired <==> now > w.nextTimer && !Exhausted(w, sc)
    ensures r.1 == Expired ==> r.0.dynamicSize == sc.maxDynamicSize && r.0.durationPtr == w.durationPtr + 1
    ensures r.1 == Expired ==>
              r.0.nextTimer == if w.durationPtr + 1 < sc.durationPtrLen
                               then w.nextTimer + sc.durations[w.durationPtr + 1]
                               else w.nextTimer
    ensures now <= w.nextTimer && !Exhausted(w, sc) ==> (r.1 == Served <==> headLen < w.dynamicSize)
  {
    if now <= w.nextTimer || Exhausted(w, sc) then
      if headLen < w.dynamicSize || Exhausted(w, sc) then
        (w.(dynamicSize := w.dynamicSize - headLen), Served)
      else
        (w, NoRoom)
    else
      var p := w.durationPtr + 1;
      var timer := if p < sc.durationPtrLen then w.nextTimer + sc.durations[p] else w.nextTimer;
      (Window(sc.maxDynamicSize, p, timer), Expired)
  }

  /** One call: the time and the length of the head entry at that time. */
  datatype Poll = Poll(now: int, headLen: nat)

  /** The window after a sequence of calls, and the bytes they released. */
  function Run(w: Window, sc: Schedule, polls: seq<Poll>): (Window, int)
    requires WellFormed(sc) && 0 <= w.durationPtr
    decreases |polls|
  {
    if |polls| == 0 then (w, 0)
    else
      var (w', d) := Step(w, sc, polls[0].now, polls[0].headLen);
      var (last, released) := Run(w', sc, polls[1..]);
      (last, released + if d == Served then polls[0].headLen else 0)
  }

  /** Within one live window (the clock has not passed `next_timer` and the
      window list is not used up) the window does not move, and the bytes
      released plus the size left equal the size the window had. When that
      size was positive the bytes released stay strictly below it, since
      every serve leaves some size over; otherwise nothing is released. */
  lemma {:induction false} LiveWindowBudget(w: Window, sc: Schedule, polls: seq<Poll>)
    requires WellFormed(sc) && 0 <= w.durationPtr && !Exhausted(w, sc)
    requires forall k :: 0 <= k < |polls| ==> polls[k].now <= w.nextTimer
    ensures Run(w, sc, polls).0.durationPtr == w.durationPtr
    ensures Run(w, sc, polls).0.nextTimer == w.nextTimer
    ensures Run(w, sc, polls).1 + Run(w, sc, polls).0.dynamicSize == w.dynamicSize
    ensures w.dynamicSize > 0 ==> 0 <= Run(w, sc, polls).1 < w.dynamicSize
    ensures w.dynamicSize <= 0 ==> Run(w, sc, polls).1 == 0
    decreases |polls|
  {
    if |polls| > 0 {
      var (w', d) := Step(w, sc, polls[0].now, polls[0].headLen);
      LiveWindowBudget(w', sc, polls[1..]);
    }
  }

  /** Upper limit of `_dooropen`. */
  const DoorLimit: int := 11

  /** `_dooropen` after `reportFinish` on a PUSH queue. */
  function DoorAfterFinish(door: int, meetZero: bool): (d: int)
    ensures door <= d <= door + 1
    ensures d == door + 1 <==> meetZero && door < DoorLimit
    ensures door <= DoorLimit ==> d <= DoorLimit
  {
    if meetZero && door < DoorLimit then door + 1 else door
  }

  /** `_dooropen` after `n` completions on a PUSH queue. */
  function DoorAfter(door: int, meetZero: bool, n: nat): int {
    if n == 0 then door else DoorAfterFinish(DoorAfter(door, meetZero, n - 1), meetZero)
  }

  /** Completions count up to the limit and no further; without `_meetzero`
      they leave the counter alone. */
  lemma {:induction false} DoorSaturates(door: int, meetZero: bool, n: nat)
    requires door <= DoorLimit
    ensures meetZero ==> DoorAfter(door, meetZero, n) == if door + n < DoorLimit then door + n else DoorLimit
    ensures !meetZero ==> DoorAfter(door, meetZero, n) == door
  {
    if n > 0 {
      DoorSaturates(door, meetZero, n - 1);
    }
  }
}
