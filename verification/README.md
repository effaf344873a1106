# Wasmer runtime plumbing, modelled in Dafny

This project models four small pieces of the Wasmer WebAssembly runtime and
proves properties of them:

1. **The metadata header of serialized artifacts** (`MetadataHeader`,
   `metadata_header.dfy`). It is a 16-byte record: the magic `"WASMER\0\0"`,
   a `u32` ABI version (currently 1) and a `u32` payload length. `New`
   encodes a header. `Parse` decodes and validates one, checking alignment,
   then length, then magic, then version.
2. **The context object arena** (`Contexts`, `context.dfy`). A context owns
   one append-only list per kind of VM object. A handle is a context id
   paired with an index, and lookups refuse handles from other contexts.
   Context ids come from a process-wide counter. The context also carries
   host state, read with `data` and written with `data_mut`.
3. **Engine identifiers** (`Engine`, `engine.dfy`). Ids come from a
   process-wide counter, and cloning an id allocates a fresh one. Ids are
   compared by their number and printed in decimal.
4. **The universal artifact's byte pass-through** (`UniversalArtifact`,
   `universal_artifact.dfy`). Every byte slice is accepted as a reference,
   a reference serializes back to exactly its bytes, and a build serializes
   to its module's serialization with no header in front.

Supporting modules:
- `Wrappers`: the `Result` type.
- `Errors`: the error values, with panics as a `Panic` value.
- `Bytes`: bytes and little-endian integers.
- `Decimal`: the decimal numerals that `format!("{}")` prints.
- `Counters`: a process-wide atomic counter, as explicit state.

Modelling choices:
- Every global counter (`static NEXT_ID`) is a `Counter` value. Each
  allocation takes one and returns the advanced one.
- A panic (`expect`, `assert_eq!`, an out-of-bounds index) is an `Err`
  carrying a `Panic` with its message.
- `mem::transmute` is native-endian in the source; the model fixes
  little-endian.
- The address of the buffer given to `parse` is an explicit number, and
  "aligned" means that number is a multiple of 16.
- All six object lists of a context hold one abstract element type `V`. An
  `ObjectKind` stands for the Rust type whose `ContextObject` impl selects
  the list, and a handle records its kind.
- `get_mut` and `data_mut` hand out mutable references. They are modelled
  as writing through the reference with an update function and returning
  the new state.
- The serializable module of the universal artifact is the type parameter
  `M`. Its serializer and its archive deserializer are function parameters
  about which nothing is assumed.
- The universal artifact declares a 16-byte signature `MAGIC_HEADER`
  (lib/universal-artifact/src/artifact.rs:69), but nothing checks or writes
  it. The `starts_with` test in `is_deserializable` (line 73) is commented
  out and marked FIXME, so the function returns `true`. The header writes in
  `serialize` (lines 220-221) are commented out too. The model follows the
  code as it stands.
- `Contexts.List`, `Contexts.Data` and `Contexts.IntoData` are plain field
  reads, modelling `list()` (lib/api/src/sys/context.rs:39-41), `data()`
  (lines 153-155) and `into_data()` (lines 163-165). What they return is
  stated by `Contexts.WithList`, `Contexts.NewHandle`,
  `Contexts.NewContextData` and `Contexts.DataMutThenData`.

## Model

| member | source | states |
|---|---|---|
| Bytes.FromLEToLE | lib/artifact/src/artifact.rs:79-80 | decoding the little-endian bytes of a `u32` field gives back the field's value |
| Bytes.ToLEFromLE | lib/artifact/src/artifact.rs:121 | re-encoding the value 4 bytes denote gives back those 4 bytes |
| Bytes.FromLEInjective | lib/artifact/src/artifact.rs:121 | two same-width byte strings denote the same integer if and only if they are equal |
| MetadataHeader.Layout | lib/artifact/src/artifact.rs:104 | the bytes of a header record (`transmute` of the struct) are always exactly 16 long |
| MetadataHeader.View | lib/artifact/src/artifact.rs:121 | any 16 bytes read as a record (`transmute` of the array) give an 8-byte magic and two values that fit in `u32` |
| MetadataHeader.ViewOfLayout | lib/artifact/src/artifact.rs:104 | reading back the 16 bytes of a header record (8-byte magic, then two `u32`s) gives the record |
| MetadataHeader.LayoutOfView | lib/artifact/src/artifact.rs:114-121 | any 16 bytes are exactly the layout of the record they denote, so no bytes are lost in the conversion |
| MetadataHeader.New | lib/artifact/src/artifact.rs:97-105 | panics with "metadata exceeds maximum length" exactly when `len > u32::MAX`; otherwise returns 16 bytes: the magic, version 1 in bytes 8..12 and `len` in bytes 12..16 |
| MetadataHeader.Parse | lib/artifact/src/artifact.rs:107-134 | succeeds exactly when the buffer is 16-aligned, holds at least 16 bytes, and its first 16 bytes are a header `new` writes for some length; on success `new` of the result rebuilds those bytes; a failure is CorruptedBinary exactly when the buffer is misaligned or short, and Incompatible otherwise |
| MetadataHeader.ParseNew | lib/artifact/src/artifact.rs:98-134 | round trip: an aligned buffer starting with `new(len)` parses to `len`, whatever follows |
| MetadataHeader.ParseIgnoresTrailing | lib/artifact/src/artifact.rs:114-121 | parse reads only the first 16 bytes; trailing bytes never change the result |
| MetadataHeader.ParseRejectsMisaligned | lib/artifact/src/artifact.rs:109-113 | a misaligned buffer is CorruptedBinary("misaligned metadata") whatever its contents, so alignment is checked first |
| MetadataHeader.ParseRejectsShort | lib/artifact/src/artifact.rs:114-120 | an aligned buffer shorter than 16 bytes is CorruptedBinary("invalid metadata header") |
| MetadataHeader.ParseRejectsForeignMagic | lib/artifact/src/artifact.rs:122-126 | a header with a wrong magic is Incompatible("not serialized by Wasmer") whatever its version, so the magic is checked before the version |
| MetadataHeader.ParseRejectsOtherVersion | lib/artifact/src/artifact.rs:127-132 | a Wasmer header with any version other than 1 is Incompatible("incompatible version") |
| MetadataHeader.NewInjective | lib/artifact/src/artifact.rs:98-105 | distinct lengths get distinct headers |
| Counters.FetchAdd | lib/engine/src/engine.rs:95-97 | `fetch_add(1)` hands out a value never handed out before, larger than all of them, and from then on counts it as handed out |
| Counters.FetchMany | lib/api/src/sys/context.rs:24-25 | successive `fetch_add(1)` calls hand out strictly increasing values, none handed out before |
| Counters.FetchManyValues | lib/api/src/sys/context.rs:24-25 | the values successive `fetch_add(1)` calls hand out are consecutive, starting at the counter's value |
| Counters.InitialHandsOutNaturals | lib/engine/src/engine.rs:95-97 | a counter created with `new(0)` hands out 0, 1, 2, … in order |
| Contexts.DefaultId | lib/api/src/sys/context.rs:19-26 | a new context id differs from, and is larger than, every id allocated before |
| Contexts.SuccessiveContextsDistinct | lib/api/src/sys/context.rs:97-106 | two contexts created one after the other have distinct, increasing ids |
| Contexts.WithList | lib/api/src/sys/context.rs:35-57 | writing the list of one object kind leaves the context id and the other five lists unchanged |
| Contexts.DefaultObjects | lib/api/src/sys/context.rs:97-106 | default objects have a fresh id and six empty lists |
| Contexts.NewHandle | lib/api/src/sys/context.rs:71-80 | the handle's index is the list's length before the push and it carries the context's id; only the selected list grows, by exactly the new value; the other lists are unchanged |
| Contexts.Get | lib/api/src/sys/context.rs:82-86 | returns the indexed element exactly when the ids match and the index is in range; panics "object used with the wrong context" whenever the ids differ |
| Contexts.GetMut | lib/api/src/sys/context.rs:88-92 | fails exactly as `get` does; otherwise the referenced slot holds the updated value, the id and all list lengths are unchanged, and every other slot reads as before |
| Contexts.NewHandleThenGet | lib/api/src/sys/context.rs:71-86 | `get` on the handle `new` just returned yields the stored value; every handle valid before stays valid and reads the same |
| Contexts.ForeignHandleRejected | lib/api/src/sys/context.rs:83-92 | `get` and `get_mut` refuse a handle issued by a context with a different id |
| Contexts.Run | lib/api/src/sys/context.rs:69-93 | a run of inserts and writes keeps the context id and never shortens a list |
| Contexts.RunKeepsHandlesValid | lib/api/src/sys/context.rs:98-106 | over any run of operations, every handle valid before and every handle issued during it still belongs to the context and is in bounds |
| Contexts.NewContext | lib/api/src/sys/context.rs:142-150 | a new context holds the given data and store, has all object lists empty and a fresh id |
| Contexts.DataMut | lib/api/src/sys/context.rs:157-160 | writing the host state leaves the objects and the store untouched, and `data()` then returns the written value |
| Contexts.NewContextData | lib/api/src/sys/context.rs:152-165 | `data()` and `into_data()` of a new context return the data it was created with |
| Contexts.DataMutThenData | lib/api/src/sys/context.rs:153-165 | after a value is written through `data_mut`, `data()` and `into_data()` return it |
| Engine.Cmp | lib/engine/src/engine.rs:73-78 | the derived ordering follows the counter values: Less exactly when a's value is smaller, Greater exactly when it is larger, Equal exactly for equal ids |
| Engine.Eq | lib/engine/src/engine.rs:73-78 | the derived equality holds exactly for equal ids, and agrees with the ordering |
| Engine.CmpAntisymmetric | lib/engine/src/engine.rs:73 | a is less than b exactly when b is greater than a |
| Engine.CmpTransitive | lib/engine/src/engine.rs:73 | the ordering is transitive |
| Engine.Default | lib/engine/src/engine.rs:93-100 | a new id is fresh: unequal to and ordered after every id handed out before |
| Engine.DefaultMany | lib/engine/src/engine.rs:93-100 | successive `default()` calls return strictly increasing fresh ids |
| Engine.Clone | lib/engine/src/engine.rs:87-91 | a clone is a fresh id, never equal to the id it was cloned from if that id was issued, and ordered after it |
| Engine.CloneIsFresh | lib/engine/src/engine.rs:87-100 | a clone neither equals nor prints like its source, and two clones of one id differ from each other |
| Engine.Id | lib/engine/src/engine.rs:81-84 | `id()` is a canonical decimal numeral (digits only, no leading zero) whose value is the counter value |
| Engine.IdInjective | lib/engine/src/engine.rs:81-84 | two ids print alike exactly when they are equal |
| Decimal.ValueOfRender | lib/engine/src/engine.rs:83 | the numeral `format!("{}")` prints reads back as the number |
| Decimal.Render | lib/engine/src/engine.rs:83 | `format!("{}")` prints a canonical numeral: only digits, at least one, no leading zero, and it starts with '0' exactly for 0 |
| UniversalArtifact.IsDeserializable | lib/universal-artifact/src/artifact.rs:71-74 | every byte sequence is accepted as deserializable |
| UniversalArtifact.RefTryFrom | lib/universal-artifact/src/artifact.rs:34-45 | building a reference never fails and wraps exactly the given bytes |
| UniversalArtifact.RefSerialize | lib/universal-artifact/src/artifact.rs:266-268 | serializing a reference never fails, and wrapping the output again gives the same reference |
| UniversalArtifact.RefRoundTrip | lib/universal-artifact/src/artifact.rs:37-44 | the bytes a reference is built from are exactly the bytes it serializes to |
| UniversalArtifact.BuildSerialize | lib/universal-artifact/src/artifact.rs:215-224 | a build serializes to the module serializer's result, success or error, with no magic or metadata header prepended |
| UniversalArtifact.FromSerializable | lib/universal-artifact/src/artifact.rs:163-166 | the build holds the given module unchanged |
| UniversalArtifact.BuildTryFromRef | lib/universal-artifact/src/artifact.rs:55-65 | a build from a reference succeeds exactly when the archive deserializer does, and then holds the module it returned |
| UniversalArtifact.BuildRefRoundTrip | lib/universal-artifact/src/artifact.rs:58-63 | a build serialized and handed back through a reference serializes to the same bytes, and comes back as the same build when the deserializer inverts the serializer |
| UniversalArtifact.GetDefaultExtension | lib/universal-artifact/src/artifact.rs:168-173 | the default extension is "wasmu" for every target triple |
| UniversalArtifact.New | lib/universal-artifact/src/artifact.rs:155-161 | without the compiler feature, building always fails with a Codegen error |

## Left out

- lib/c-api/wasmer.hh: a generated declaration header with no logic.
- The WebAssembly validator, executor, store/instance lifecycle and WASI layer: their code is not part of this model.
- MetadataHeader.Layout: native-endian `transmute` is modelled as little-endian; on a big-endian host the integer bytes are reversed.
- Counters.FetchAdd: the counter is unbounded. `AtomicU64` overflow is disregarded by the source itself, and `AtomicUsize` wrap-around for engine ids is not modelled. Atomic memory orderings play no part in a sequential model.
- Engine.Clone: "ordered after the original" relies on the unbounded counter; after a `usize` wrap-around the source would hand out a smaller id.
- Contexts.Get: the index-out-of-bounds panic carries a fixed message, not the lengths Rust prints.
- MetadataHeader.New, Contexts.Get, Contexts.GetMut: a panic keeps only the custom part of its message. `expect` also prints the conversion error ("metadata exceeds maximum length: TryFromIntError(())"), and `assert_eq!` also prints the assertion text and both context ids.
- ContextInner's boxing, `ContextRef`, `ContextRefMut` and the `AsContextRef`/`AsContextRefMut` traits: they only give borrowed access to the same host state, which `Data` and `DataMut` model.
- `Context::new` clones the `Store`; the store is opaque here, and its clone is modelled as the same value.
- UniversalArtifact.BuildSerialize: the `assert!` that the module's alignment is at most 16 is about a compile-time constant and is not modelled.
- `UniversalArtifactBuild::new` with the compiler feature: it only calls into other crates, namely `ModuleEnvironment::translate`, the compiler's middlewares (`apply_on_module_info`), `compile_module` and `make_libcall_trampolines`.
- rkyv archiving (`Deref` to `ArchivedSerializableModule`, `deserialize_from_archive`): foreign zero-copy deserialization; the archive deserializer is a function parameter.
- The `ArtifactCreate` accessors (`create_module_info`, `features`, `cpu_features`, `memory_styles`, `table_styles`, `data_initializers`), `get_frame_info_ref` and the reference's `PrimaryMapRef` getters: they read fields of the opaque module.
- `serialize_to_file`: filesystem I/O.
- `Upcastable`: `Any` downcasting has no counterpart in Dafny.
- The abstract methods of the `Engine` trait: they have no bodies.
- The VM object types stored in a context (`VMMemory`, `VMTable`, …): every list holds an abstract element type.
