/** The readiness table a queue consults (`_rt`): per key, whether every
    upstream signal has arrived. Only the two operations the queue calls are
    modelled; the counting inside the table is reduced to a flag per key. */
module Readiness {
  import opened Wrappers
  import opened Tasks
  import Scan

  class ReadyTable {
    var ready: map<Key, bool>

    constructor (ready: map<Key, bool>)
      ensures this.ready == ready
    {
      this.ready := ready;
    }

    /** `IsKeyReady(key)`: a key the table has never seen is not ready. */
    predicate IsKeyReady(key: Key)
      reads this
    {
      Scan.KeyReady(Some(ready), key)
    }

    /** `ClearReadyCount(key)`: the key is not ready until its signals
        arrive again; no other key changes. */
    method ClearReadyCount(key: Key)
      modifies this
      ensures ready == old(ready)[key := false]
      ensures !IsKeyReady(key)
    {
      ready := ready[key := false];
    }
  }
}
