/** The context arena of the runtime: a `Context` owns one append-only list
    per kind of VM object, and objects are referred to by handles made of the
    owning context's id and an index into the list of their kind. The VM
    object types themselves are abstract: every list holds values of the
    type parameter `V`, and an `ObjectKind` stands for the Rust type that
    selects a list through its `ContextObject` implementation. */
module Contexts {
  import opened Wrappers
  import opened Errors
  import opened Counters

  const WRONG_CONTEXT := "object used with the wrong context"
  const OUT_OF_BOUNDS := "index out of bounds"

  /** Unique id of a context. */
  datatype ContextId = ContextId(value: nat)

  /** `ContextId::default()`: allocates the id of a new context from the
      process-wide counter. */
  function DefaultId(c: Counter): (r: (ContextId, Counter))
    ensures !Issued(c, r.0.value) && Issued(r.1, r.0.value)
    ensures forall id: ContextId :: Issued(c, id.value) ==> id != r.0 && id.value < r.0.value
  {
    var (n, c') := FetchAdd(c);
    (ContextId(n), c')
  }

  /** The VM object types a context manages, one list each. */
  datatype ObjectKind = HostFunc | Table | Global | Instance | Memory | ExternVal

  /** `ContextObjects`: the context's id and its six object lists. */
  datatype ContextObjects<V> = ContextObjects(
    id: ContextId,
    memories: seq<V>,
    tables: seq<V>,
    globals: seq<V>,
    hostFuncs: seq<V>,
    instances: seq<V>,
    externVals: seq<V>)

  /** `ContextObject::list`: the list that holds objects of `kind`. */
  function List<V>(objs: ContextObjects<V>, kind: ObjectKind): seq<V> {
    match kind
    case HostFunc => objs.hostFuncs
    case Table => objs.tables
    case Global => objs.globals
    case Instance => objs.instances
    case Memory => objs.memories
    case ExternVal => objs.externVals
  }

  /** `ContextObject::list_mut` followed by a write of the whole list: the
      objects with the list of `kind` replaced by `list`. Nothing else
      changes. */
  function WithList<V>(objs: ContextObjects<V>, kind: ObjectKind, list: seq<V>): (r: ContextObjects<V>)
    ensures r.id == objs.id
    ensures List(r, kind) == list
    ensures forall k :: k != kind ==> List(r, k) == List(objs, k)
  {
    match kind
    case HostFunc => objs.(hostFuncs := list)
    case Table => objs.(tables := list)
    case Global => objs.(globals := list)
    case Instance => objs.(instances := list)
    case Memory => objs.(memories := list)
    case ExternVal => objs.(externVals := list)
  }

  /** `ContextObjects::default()`: a fresh id and six empty lists. */
  function DefaultObjects<V>(c: Counter): (r: (ContextObjects<V>, Counter))
    ensures forall k :: List(r.0, k) == []
    ensures !Issued(c, r.0.id.value) && Issued(r.1, r.0.id.value)
    ensures r.1.next == c.next + 1
  {
    var (id, c') := DefaultId(c);
    (ContextObjects(id, [], [], [], [], [], []), c')
  }

  /** `ContextHandle<T>`: the context id, the list the Rust type `T`
      selects, and the index into it. */
  datatype ContextHandle = ContextHandle(kind: ObjectKind, id: ContextId, idx: nat)

  /** `ContextHandle::new(ctx, val)`: moves `val` into the list of its kind
      and returns a handle to it. */
  function NewHandle<V>(objs: ContextObjects<V>, kind: ObjectKind, val: V): (r: (ContextHandle, ContextObjects<V>))
    ensures r.0 == ContextHandle(kind, objs.id, |List(objs, kind)|)
    ensures r.1.id == objs.id
    ensures List(r.1, kind) == List(objs, kind) + [val]
    ensures forall k :: k != kind ==> List(r.1, k) == List(objs, k)
  {
    var list := List(objs, kind);
    (ContextHandle(kind, objs.id, |list|), WithList(objs, kind, list + [val]))
  }

  /** `ContextHandle::get(ctx)`: the object the handle points to. Panics when
      the handle belongs to another context, and, as indexing does, when the
      index is outside the list. */
  function Get<V>(h: ContextHandle, objs: ContextObjects<V>): (r: Result<V, Panic>)
    ensures r.Ok? <==> h.id == objs.id && h.idx < |List(objs, h.kind)|
    ensures r.Ok? ==> r.value == List(objs, h.kind)[h.idx]
    ensures h.id != objs.id ==> r == Err(Panic(WRONG_CONTEXT))
  {
    if h.id != objs.id then
      Err(Panic(WRONG_CONTEXT))
    else if h.idx >= |List(objs, h.kind)| then
      Err(Panic(OUT_OF_BOUNDS))
    else
      Ok(List(objs, h.kind)[h.idx])
  }

  /** `ContextHandle::get_mut(ctx)` through which `update` rewrites the
      object: the objects afterwards. Fails exactly as `get` does; otherwise
      only the one slot changes. */
  function GetMut<V>(h: ContextHandle, objs: ContextObjects<V>, update: V -> V): (r: Result<ContextObjects<V>, Panic>)
    ensures r.Ok? <==> Get(h, objs).Ok?
    ensures r.Err? ==> r.error == Get(h, objs).error
    ensures r.Ok? ==> r.value.id == objs.id
    ensures r.Ok? ==> Get(h, r.value) == Ok(update(Get(h, objs).value))
    ensures r.Ok? ==> forall k :: |List(r.value, k)| == |List(objs, k)|
    ensures r.Ok? ==> forall g: ContextHandle :: g.kind != h.kind || g.idx != h.idx ==> Get(g, r.value) == Get(g, objs)
  {
    if h.id != objs.id then
      Err(Panic(WRONG_CONTEXT))
    else if h.idx >= |List(objs, h.kind)| then
      Err(Panic(OUT_OF_BOUNDS))
    else
      var list := List(objs, h.kind);
      Ok(WithList(objs, h.kind, list[h.idx := update(list[h.idx])]))
  }

  /** Every handle in `handles` belongs to the context and points inside its
      list. */
  ghost predicate Valid<V>(objs: ContextObjects<V>, handles: set<ContextHandle>) {
    forall h :: h in handles ==> h.id == objs.id && h.idx < |List(objs, h.kind)|
  }

  /** `get` on a handle just returned by `new` yields the stored value, and
      every handle valid before stays valid and still yields what it did. */
  lemma NewHandleThenGet<V>(objs: ContextObjects<V>, handles: set<ContextHandle>, kind: ObjectKind, val: V)
    requires Valid(objs, handles)
    ensures var (h, objs') := NewHandle(objs, kind, val);
      && Get(h, objs') == Ok(val)
      && Valid(objs', handles + {h})
      && forall g :: g in handles ==> Get(g, objs') == Get(g, objs)
  {
    var (h, objs') := NewHandle(objs, kind, val);
    forall g | g in handles
      ensures Get(g, objs') == Get(g, objs)
    {
      if g.kind == kind {
        assert List(objs', kind)[g.idx] == List(objs, kind)[g.idx];
      }
    }
  }

  /** A handle issued by one context is refused by any context with another
      id, whatever it points to. */
  lemma ForeignHandleRejected<V>(objs: ContextObjects<V>, other: ContextObjects<V>, kind: ObjectKind, val: V)
    requires other.id != objs.id
    ensures var (h, objs') := NewHandle(objs, kind, val);
      && Get(h, other) == Err(Panic(WRONG_CONTEXT))
      && GetMut(h, other, (v: V) => v) == Err(Panic(WRONG_CONTEXT))
  {
  }

  /** Two contexts created one after the other get distinct ids, so neither
      accepts the other's handles. */
  lemma SuccessiveContextsDistinct<V>(c: Counter)
    ensures var (a, c') := DefaultObjects<V>(c);
      var (b, c'') := DefaultObjects<V>(c');
      a.id != b.id && a.id.value < b.id.value
  {
  }

  /** An operation of a context's owner on its object lists: moving a new
      object in with `ContextHandle::new`, or writing through `get_mut`. */
  datatype Op<V> = Insert(kind: ObjectKind, val: V) | Write(handle: ContextHandle, val: V)

  /** Runs `ops` in order on the objects, collecting the handles the inserts
      return; fails with the panic of the first write that panics. */
  function Run<V>(objs: ContextObjects<V>, ops: seq<Op<V>>): (r: Result<(ContextObjects<V>, seq<ContextHandle>), Panic>)
    ensures r.Ok? ==> r.value.0.id == objs.id
    ensures r.Ok? ==> forall k :: |List(objs, k)| <= |List(r.value.0, k)|
    decreases |ops|
  {
    if |ops| == 0 then
      Ok((objs, []))
    else
      match ops[0]
      case Insert(kind, val) =>
        var (h, objs') := NewHandle(objs, kind, val);
        (match Run(objs', ops[1..])
         case Ok((objs'', hs)) => Ok((objs'', [h] + hs))
         case Err(e) => Err(e))
      case Write(h, val) =>
        (match GetMut(h, objs, (_: V) => val)
         case Err(e) => Err(e)
         case Ok(objs') => Run(objs', ops[1..]))
  }

  /** The lists are append-only, so a handle stays valid for the context's
      whole lifetime: after any run of operations, every handle valid before
      it and every handle it issued belongs to the context and points inside
      its list. */
  lemma {:induction false} RunKeepsHandlesValid<V>(objs: ContextObjects<V>, handles: set<ContextHandle>, ops: seq<Op<V>>)
    requires Valid(objs, handles)
    ensures Run(objs, ops).Ok? ==>
      var (objs', issued) := Run(objs, ops).value;
      Valid(objs', handles) && forall i :: 0 <= i < |issued| ==> Valid(objs', {issued[i]})
    decreases |ops|
  {
    if |ops| > 0 && Run(objs, ops).Ok? {
      match ops[0]
      case Insert(kind, val) =>
        var (h, objs1) := NewHandle(objs, kind, val);
        NewHandleThenGet(objs, handles, kind, val);
        RunKeepsHandlesValid(objs1, handles + {h}, ops[1..]);
        var (objs', rest) := Run(objs1, ops[1..]).value;
        assert Run(objs, ops).value == (objs', [h] + rest);
        forall i | 0 <= i < |[h] + rest|
          ensures Valid(objs', {([h] + rest)[i]})
        {
          if i > 0 {
            assert ([h] + rest)[i] == rest[i - 1];
          }
        }
      case Write(g, val) =>
        var objs1 := GetMut(g, objs, (_: V) => val).value;
        assert Valid(objs1, handles);
        RunKeepsHandlesValid(objs1, handles, ops[1..]);
    }
  }

  /** `Context<T>`: the object arena, the store it was created from (opaque
      here) and the host state `data` of type `T`. */
  datatype Context<T, S, V> = Context(objects: ContextObjects<V>, store: S, data: T)

  /** `Context::new(store, data)`: a context with a fresh id, empty object
      lists, a copy of the store and the given host state. */
  function NewContext<T, S, V>(c: Counter, store: S, data: T): (r: (Context<T, S, V>, Counter))
    ensures r.0.data == data && r.0.store == store
    ensures forall k :: List(r.0.objects, k) == []
    ensures !Issued(c, r.0.objects.id.value) && Issued(r.1, r.0.objects.id.value)
  {
    var (objs, c') := DefaultObjects<V>(c);
    (Context(objs, store, data), c')
  }

  /** `Context::data`: the host state. */
  function Data<T, S, V>(ctx: Context<T, S, V>): T {
    ctx.data
  }

  /** `Context::data_mut` through which `update` rewrites the host state:
      the context afterwards. The objects and the store are untouched. */
  function DataMut<T, S, V>(ctx: Context<T, S, V>, update: T -> T): (r: Context<T, S, V>)
    ensures r.objects == ctx.objects && r.store == ctx.store
    ensures Data(r) == update(Data(ctx))
  {
    ctx.(data := update(ctx.data))
  }

  /** `Context::into_data`: consumes the context and returns its host state. */
  function IntoData<T, S, V>(ctx: Context<T, S, V>): T {
    ctx.data
  }

  /** A new context holds the host state it was given: `data()` and
      `into_data()` both return it. */
  lemma NewContextData<T, S, V>(c: Counter, store: S, data: T)
    ensures var ctx := NewContext<T, S, V>(c, store, data).0;
      Data(ctx) == data && IntoData(ctx) == data
  {
  }

  /** After a value is written through `data_mut`, `data()` and
      `into_data()` return that value. */
  lemma DataMutThenData<T, S, V>(ctx: Context<T, S, V>, val: T)
    ensures Data(DataMut(ctx, (_: T) => val)) == val
    ensures IntoData(DataMut(ctx, (_: T) => val)) == val
  {
  }
}
