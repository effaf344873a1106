/** A process-wide `static NEXT_ID: Atomic*` counter, as the id allocators
    of contexts and engines use one. The global is modelled as explicit state
    threaded through every allocation; memory orderings play no part in a
    sequential model, and the counter is unbounded. */
module Counters {

  /** The counter's state: the value the next `fetch_add(1)` hands out. */
  datatype Counter = Counter(next: nat)

  /** The counter's state at program start (`Atomic*::new(0)`). */
  const Initial: Counter := Counter(0)

  /** A value `c` has already handed out. */
  predicate Issued(c: Counter, n: nat) {
    n < c.next
  }

  /** `fetch_add(1)`: hands out a value and advances the counter. The value
      differs from every value handed out before, and from then on it counts
      as handed out. */
  function FetchAdd(c: Counter): (r: (nat, Counter))
    ensures !Issued(c, r.0) && Issued(r.1, r.0)
    ensures forall n: nat :: Issued(c, n) ==> Issued(r.1, n) && n < r.0
    ensures forall n: nat :: Issued(r.1, n) && n != r.0 ==> Issued(c, n)
  {
    (c.next, Counter(c.next + 1))
  }

  /** The values `k` successive `fetch_add(1)` calls hand out, and the final
      counter state. */
  function FetchMany(c: Counter, k: nat): (r: (seq<nat>, Counter))
    ensures |r.0| == k
    ensures forall i :: 0 <= i < k ==> !Issued(c, r.0[i]) && Issued(r.1, r.0[i])
    ensures forall i, j :: 0 <= i < j < k ==> r.0[i] < r.0[j]
    ensures forall n: nat :: Issued(c, n) ==> Issued(r.1, n)
    decreases k
  {
    if k == 0 then ([], c)
    else
      var (first, c') := FetchAdd(c);
      var (rest, c'') := FetchMany(c', k - 1);
      ([first] + rest, c'')
  }

  /** The `k` values handed out in a row are the `k` numbers starting at
      the counter's value, with no gaps. */
  lemma {:induction false} FetchManyValues(c: Counter, k: nat)
    ensures forall i :: 0 <= i < k ==> FetchMany(c, k).0[i] == c.next + i
    decreases k
  {
    if k > 0 {
      var (first, c') := FetchAdd(c);
      FetchManyValues(c', k - 1);
      var rest := FetchMany(c', k - 1).0;
      assert FetchMany(c, k).0 == [first] + rest;
    }
  }

  /** A counter created with `new(0)` hands out 0, 1, 2, ... in order. */
  lemma InitialHandsOutNaturals(k: nat)
    ensures forall i :: 0 <= i < k ==> FetchMany(Initial, k).0[i] == i
  {
    FetchManyValues(Initial, k);
  }
}
