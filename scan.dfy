/** The filters `getTask()` applies while it walks the pending list `_sq`,
    and the search of `getTask(key)`, as functions of the list and of the
    state the queue reads during one call. */
module Scan {
  import opened Wrappers
  import opened Tasks

  /** A snapshot of the readiness table `_rt`: `None` when the queue has no
      table, otherwise whether each key is ready. A key the table has never
      seen is not ready. */
  type TableView = Option<map<Key, bool>>

  predicate KeyReady(table: TableView, key: Key) {
    table.None? || (key in table.value && table.value[key])
  }

  /** The entry's `ready_event` is absent or ready. */
  predicate EventAllows(t: Task) {
    t.readyEvent != Waiting
  }

  /** When credit control is on, the entry fits in the remaining credit. */
  predicate FitsCredit(t: Task, credits: int, scheduled: bool) {
    !scheduled || t.len <= credits
  }

  /** The entry survives all three filters of `getTask()`. */
  predicate Passes(t: Task, credits: int, scheduled: bool, table: TableView) {
    EventAllows(t) && FitsCredit(t, credits, scheduled) && KeyReady(table, t.key)
  }

  /** The position of the entry `getTask()` takes: the first one in list
      order that survives the filters; every earlier entry fails one. */
  function FirstEligible(sq: seq<Task>, credits: int, scheduled: bool, table: TableView): (r: Option<nat>)
    ensures r.Some? ==> r.value < |sq| && Passes(sq[r.value], credits, scheduled, table)
    ensures r.Some? ==> forall j :: 0 <= j < r.value ==> !Passes(sq[j], credits, scheduled, table)
    ensures r.None? <==> forall j :: 0 <= j < |sq| ==> !Passes(sq[j], credits, scheduled, table)
  {
    if |sq| == 0 then None
    else if Passes(sq[0], credits, scheduled, table) then Some(0)
    else match FirstEligible(sq[1..], credits, scheduled, table)
      case None => None
      case Some(k) => Some(k + 1)
  }

  /** Where the walk of `getTask(key)` stops. */
  datatype Lookup =
    | Found(index: nat)     // the first entry with the key; it is taken out
    | Missing               // no entry has the key
    | Blocked(index: nat)   // the `BPS_CHECK` on this entry's event fails first

  /** `getTask(key)` checks each entry's event before it compares the key,
      so an entry with a pending event aborts the walk if it comes no later
      than the first match. */
  function KeyedLookup(sq: seq<Task>, key: Key): (r: Lookup)
    ensures r.Found? ==> r.index < |sq| && sq[r.index].key == key && EventAllows(sq[r.index])
    ensures r.Found? ==> forall j :: 0 <= j < r.index ==> sq[j].key != key && EventAllows(sq[j])
    ensures r.Missing? <==> forall j :: 0 <= j < |sq| ==> sq[j].key != key && EventAllows(sq[j])
    ensures r.Blocked? ==> r.index < |sq| && !EventAllows(sq[r.index])
    ensures r.Blocked? ==> forall j :: 0 <= j < r.index ==> sq[j].key != key && EventAllows(sq[j])
  {
    if |sq| == 0 then Missing
    else if !EventAllows(sq[0]) then Blocked(0)
    else if sq[0].key == key then Found(0)
    else match KeyedLookup(sq[1..], key)
      case Found(k) => Found(k + 1)
      case Missing => Missing
      case Blocked(k) => Blocked(k + 1)
  }
}
