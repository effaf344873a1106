/** `EngineId`, the identity of an engine: a number handed out by a
    process-wide counter, compared and ordered by that number, and printed in
    decimal. Cloning an id deliberately allocates a new one. */
module Engine {
  import opened Counters
  import Decimal

  /** A unique identifier for an engine. */
  datatype EngineId = EngineId(id: nat)

  /** The outcome of comparing two ids. */
  datatype Ordering = Less | Equal | Greater

  /** The derived `Ord::cmp`: ids are ordered as their counter values are. */
  function Cmp(a: EngineId, b: EngineId): (r: Ordering)
    ensures r == Equal <==> a == b
    ensures r == Less <==> a.id < b.id
    ensures r == Greater <==> b.id < a.id
  {
    if a.id < b.id then Less else if a.id == b.id then Equal else Greater
  }

  /** The derived `PartialEq::eq`: compares the counter values. */
  function Eq(a: EngineId, b: EngineId): (r: bool)
    ensures r <==> a == b
    ensures r <==> Cmp(a, b) == Equal
  {
    a.id == b.id
  }

  /** `EngineId::default()`: the next value of the counter. The new id is
      different from, and orders after, every id handed out before. */
  function Default(c: Counter): (r: (EngineId, Counter))
    ensures !Issued(c, r.0.id) && Issued(r.1, r.0.id)
    ensures forall e: EngineId :: Issued(c, e.id) ==> !Eq(e, r.0) && Cmp(e, r.0) == Less
    ensures forall n: nat :: Issued(c, n) ==> Issued(r.1, n)
  {
    var (n, c') := FetchAdd(c);
    (EngineId(n), c')
  }

  /** `EngineId::clone()`: does not copy `e` but allocates a fresh id. */
  function Clone(e: EngineId, c: Counter): (r: (EngineId, Counter))
    ensures !Issued(c, r.0.id) && Issued(r.1, r.0.id)
    ensures Issued(c, e.id) ==> r.0 != e && Cmp(e, r.0) == Less
  {
    Default(c)
  }

  /** `EngineId::id()`: the counter value as a decimal numeral. */
  function Id(e: EngineId): (s: string)
    ensures Decimal.IsCanonical(s)
    ensures Decimal.Value(s) == e.id
  {
    Decimal.ValueOfRender(e.id);
    Decimal.Render(e.id)
  }

  /** The ordering is antisymmetric, as `Ord` requires. */
  lemma CmpAntisymmetric(a: EngineId, b: EngineId)
    ensures Cmp(a, b) == Less <==> Cmp(b, a) == Greater
  {
  }

  /** Two ids print alike exactly when they are equal. */
  lemma IdInjective(a: EngineId, b: EngineId)
    ensures Id(a) == Id(b) <==> a == b
  {
    Decimal.RenderInjective(a.id, b.id);
  }

  /** The ordering is transitive, as `Ord` requires. */
  lemma CmpTransitive(a: EngineId, b: EngineId, c: EngineId)
    requires Cmp(a, b) == Less && Cmp(b, c) == Less
    ensures Cmp(a, c) == Less
  {
  }

  /** A clone of an issued id is never equal to it and does not print like
      it, and two clones of one id are different from each other. */
  lemma CloneIsFresh(e: EngineId, c: Counter)
    requires Issued(c, e.id)
    ensures var (x, c') := Clone(e, c);
      var (y, _) := Clone(e, c');
      && !Eq(x, e) && Id(x) != Id(e)
      && !Eq(y, e) && !Eq(x, y) && Cmp(x, y) == Less
  {
    var (x, c') := Clone(e, c);
    IdInjective(x, e);
  }

  /** The ids `k` successive `default()` calls return, with the final
      counter. */
  function DefaultMany(c: Counter, k: nat): (r: (seq<EngineId>, Counter))
    ensures |r.0| == k
    ensures forall i, j :: 0 <= i < j < k ==> Cmp(r.0[i], r.0[j]) == Less
    ensures forall i :: 0 <= i < k ==> !Issued(c, r.0[i].id) && Issued(r.1, r.0[i].id)
    ensures forall n: nat :: Issued(c, n) ==> Issued(r.1, n)
    decreases k
  {
    if k == 0 then ([], c)
    else
      var (first, c') := Default(c);
      var (rest, c'') := DefaultMany(c', k - 1);
      ([first] + rest, c'')
  }
}
