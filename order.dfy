/** The gradient multiset `_ms`: a list kept in the order of the set's
    comparator, `insert` at the end of the run of equivalent entries,
    `lower_bound` for a priority, and the `findTask` lookup built on it.
    The comparator is given as a relation `less` on priorities. */
module Order {
  import opened Tasks
  import opened Seqs

  type Less = (int, int) -> bool

  /** What `std::multiset` demands of its comparator: irreflexive and
      transitive. */
  ghost predicate StrictOrder(less: Less) {
    && (forall a :: !less(a, a))
    && (forall a, b, c :: less(a, b) && less(b, c) ==> less(a, c))
  }

  /** Any two different priorities are ordered one way or the other. */
  ghost predicate Total(less: Less) {
    forall a, b :: a != b ==> less(a, b) || less(b, a)
  }

  /** No entry is ordered strictly before an entry that precedes it. */
  ghost predicate Sorted(s: seq<Task>, less: Less) {
    forall i, j :: 0 <= i < j < |s| ==> !less(s[j].priority, s[i].priority)
  }

  /** `lower_bound` for priority `p`: the first position whose entry is not
      ordered before `p`. */
  function LowerBound(s: seq<Task>, p: int, less: Less): (i: nat)
    ensures i <= |s|
    ensures forall j :: 0 <= j < i ==> less(s[j].priority, p)
    ensures i < |s| ==> !less(s[i].priority, p)
  {
    if |s| == 0 || !less(s[0].priority, p) then 0
    else 1 + LowerBound(s[1..], p, less)
  }

  /** `upper_bound` for priority `p`: the first position whose entry `p` is
      ordered before. */
  function UpperBound(s: seq<Task>, p: int, less: Less): (i: nat)
    ensures i <= |s|
    ensures forall j :: 0 <= j < i ==> !less(p, s[j].priority)
    ensures i < |s| ==> less(p, s[i].priority)
  {
    if |s| == 0 || less(p, s[0].priority) then 0
    else 1 + UpperBound(s[1..], p, less)
  }

  /** `_ms.insert(entry)`: the entry goes after every entry it is not
      ordered before, and before the rest. */
  function Insert(s: seq<Task>, t: Task, less: Less): (r: seq<Task>)
    ensures multiset(r) == multiset(s) + multiset{t}
    ensures |r| == |s| + 1
    ensures var u := UpperBound(s, t.priority, less);
            r[u] == t && RemoveAt(r, u) == s
  {
    var u := UpperBound(s, t.priority, less);
    assert s == s[..u] + s[u..];
    var r := s[..u] + [t] + s[u..];
    assert RemoveAt(r, u) == s;
    r
  }

  /** Inserting keeps the multiset ordered. */
  lemma {:induction false} InsertKeepsSorted(s: seq<Task>, t: Task, less: Less)
    requires StrictOrder(less) && Sorted(s, less)
    ensures Sorted(Insert(s, t, less), less)
  {
    var u := UpperBound(s, t.priority, less);
    var r := Insert(s, t, less);
    assert r == s[..u] + [t] + s[u..];
    forall i, j | 0 <= i < j < |r|
      ensures !less(r[j].priority, r[i].priority)
    {
      if j < u {
        assert r[i] == s[i] && r[j] == s[j];
      } else if j == u {
        assert r[i] == s[i];
      } else if i == u {
        assert r[j] == s[j - 1];
      } else if i < u {
        assert r[i] == s[i] && r[j] == s[j - 1];
      } else {
        assert r[i] == s[i - 1] && r[j] == s[j - 1];
      }
    }
  }

  /** For a total order on priorities, `lower_bound(p)` in an ordered
      multiset lands on an entry of priority `p` whenever there is one, and
      on the first such entry. */
  lemma {:induction false} LowerBoundFinds(s: seq<Task>, p: int, less: Less, k: nat)
    requires StrictOrder(less) && Total(less) && Sorted(s, less)
    requires k < |s| && s[k].priority == p
    ensures LowerBound(s, p, less) <= k && s[LowerBound(s, p, less)].priority == p
  {
    var i := LowerBound(s, p, less);
    assert !less(s[k].priority, p);
    assert i <= k;
  }
}
