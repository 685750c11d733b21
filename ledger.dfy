/** Credit accounting of a scheduled queue: `getTask()` debits the length of
    the task it hands out, `reportFinish` refunds it. Over any run in which
    every completion matches an outstanding dispatch, credit plus the bytes
    in flight stays equal to the initial budget, so neither goes negative
    and the bytes in flight never exceed the budget. */
module Ledger {
  import opened Seqs

  /** `_credits` after `getTask()` hands out `len` bytes. Only a scheduled
      queue's credit moves; an admitted dispatch (one that fits) leaves it
      non-negative. */
  function Debit(scheduled: bool, credits: int, len: nat): (r: int)
    ensures r <= credits
    ensures !scheduled ==> r == credits
    ensures scheduled && len <= credits ==> 0 <= r
  {
    if scheduled then credits - len else credits
  }

  /** `_credits` after `reportFinish` of a task of `len` bytes. Only a
      scheduled queue's credit moves, and a dispatch of the same length
      takes the refund back. */
  function Refund(scheduled: bool, credits: int, len: nat): (r: int)
    ensures credits <= r
    ensures !scheduled ==> r == credits
    ensures Debit(scheduled, r, len) == credits
  {
    if scheduled then credits + len else credits
  }

  /** A refund of the same task restores the credit a dispatch took. */
  lemma RefundUndoesDebit(scheduled: bool, credits: int, len: nat)
    ensures Refund(scheduled, Debit(scheduled, credits, len), len) == credits
  {
  }

  function Sum(s: seq<nat>): nat {
    if |s| == 0 then 0 else Sum(s[..|s| - 1]) + s[|s| - 1]
  }

  lemma {:induction false} SumRemoveAt(s: seq<nat>, i: nat)
    requires i < |s|
    ensures Sum(RemoveAt(s, i)) + s[i] == Sum(s)
    decreases |s|
  {
    var r := RemoveAt(s, i);
    if i < |s| - 1 {
      var last := |s| - 1;
      assert r[..|r| - 1] == RemoveAt(s[..last], i);
      SumRemoveAt(s[..last], i);
    } else {
      assert r == s[..|s| - 1];
    }
  }

  /** The credit counter of a credit-controlled queue and the lengths of the
      tasks handed out and not yet reported finished. */
  datatype Books = Books(credits: int, inFlight: seq<nat>)

  /** What happens to a credit-controlled queue's credit: a dispatch of
      `len` bytes, or the completion of the `index`-th outstanding task. */
  datatype Op = Get(len: nat) | Finish(index: nat)

  /** `getTask()` only hands out a task that fits in the remaining credit;
      a completion refers to a task still in flight. */
  predicate Admissible(b: Books, op: Op) {
    match op
    case Get(len) => len <= b.credits
    case Finish(i) => i < |b.inFlight|
  }

  function Apply(b: Books, op: Op): (r: Books)
    requires Admissible(b, op)
    ensures r.credits + Sum(r.inFlight) == b.credits + Sum(b.inFlight)
    ensures b.credits >= 0 ==> r.credits >= 0
  {
    match op
    case Get(len) =>
      assert (b.inFlight + [len])[..|b.inFlight|] == b.inFlight;
      Books(Debit(true, b.credits, len), b.inFlight + [len])
    case Finish(i) =>
      SumRemoveAt(b.inFlight, i);
      Books(Refund(true, b.credits, b.inFlight[i]), RemoveAt(b.inFlight, i))
  }

  predicate AdmissibleRun(b: Books, ops: seq<Op>)
    decreases |ops|
  {
    |ops| == 0 || (Admissible(b, ops[0]) && AdmissibleRun(Apply(b, ops[0]), ops[1..]))
  }

  function Replay(b: Books, ops: seq<Op>): Books
    requires AdmissibleRun(b, ops)
    decreases |ops|
  {
    if |ops| == 0 then b else Replay(Apply(b, ops[0]), ops[1..])
  }

  /** The credit bound: starting from a budget with nothing in flight, every
      admissible run leaves non-negative credit, the bytes in flight within
      the budget, and credit plus bytes in flight equal to the budget. */
  lemma {:induction false} CreditBound(budget: nat, ops: seq<Op>)
    requires AdmissibleRun(Books(budget, []), ops)
    ensures Replay(Books(budget, []), ops).credits >= 0
    ensures Sum(Replay(Books(budget, []), ops).inFlight) <= budget
    ensures Replay(Books(budget, []), ops).credits + Sum(Replay(Books(budget, []), ops).inFlight) == budget
  {
    Balanced(Books(budget, []), ops);
  }

  lemma {:induction false} Balanced(b: Books, ops: seq<Op>)
    requires AdmissibleRun(b, ops) && b.credits >= 0
    ensures Replay(b, ops).credits >= 0
    ensures Replay(b, ops).credits + Sum(Replay(b, ops).inFlight) == b.credits + Sum(b.inFlight)
    decreases |ops|
  {
    if |ops| > 0 {
      Balanced(Apply(b, ops[0]), ops[1..]);
    }
  }
}
