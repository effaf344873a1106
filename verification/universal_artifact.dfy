/** The acceptance and byte-identity logic of the universal artifact: the
    owned build (`UniversalArtifactBuild`), which holds a serializable module,
    and the zero-copy reference (`UniversalArtifactBuildRef`), which wraps the
    bytes of one. The serializable module is opaque: its type is the
    parameter `M`, and its serializer and archive deserializer are passed in
    as functions. */
module UniversalArtifact {
  import opened Wrappers
  import opened Errors
  import opened Bytes

  /** "wasmer-universal", the header signature of the format. The magic
      check that would use it is disabled, so nothing reads it. */
  const MAGIC_HEADER: seq<byte> :=
    [0x77, 0x61, 0x73, 0x6D, 0x65, 0x72, 0x2D, 0x75, 0x6E, 0x69, 0x76, 0x65, 0x72, 0x73, 0x61, 0x6C]

  const NOT_UNIVERSAL := "The provided bytes are not wasmer-universal"
  const COMPILATION_DISABLED := "Compilation is not enabled in the engine"

  /** A compiled module, ready to be instantiated. */
  datatype UniversalArtifactBuild<M> = UniversalArtifactBuild(serializable: M)

  /** A reference to the serialized bytes of a build. */
  datatype UniversalArtifactBuildRef = UniversalArtifactBuildRef(bytes: seq<byte>)

  /** `is_deserializable`: whether bytes look like a serialized build. The
      check against `MAGIC_HEADER` is stubbed out, so every input passes. */
  function IsDeserializable(bytes: seq<byte>): (r: bool)
    ensures r
  {
    true
  }

  /** `TryFrom<&[u8]>` for the reference: wraps the bytes if they are
      deserializable, which all of them are. */
  function RefTryFrom(bytes: seq<byte>): (r: Result<UniversalArtifactBuildRef, DeserializeError>)
    ensures r.Ok? && r.value.bytes == bytes
  {
    if !IsDeserializable(bytes) then
      Err(Incompatible(NOT_UNIVERSAL))
    else
      Ok(UniversalArtifactBuildRef(bytes))
  }

  /** `serialize` of the reference: a copy of the wrapped bytes. It never
      fails, and wrapping the copy again gives back the same reference. */
  function RefSerialize(r: UniversalArtifactBuildRef): (s: Result<seq<byte>, SerializeError>)
    ensures s.Ok?
    ensures RefTryFrom(s.value) == Ok(r)
  {
    Ok(r.bytes)
  }

  /** Round trip: the bytes a reference is built from are exactly the bytes
      it serializes to. */
  lemma RefRoundTrip(bytes: seq<byte>)
    ensures RefSerialize(RefTryFrom(bytes).value) == Ok(bytes)
  {
  }

  /** `serialize` of the build: the serializer's output for the module, with
      neither the format's magic nor a metadata header put in front. */
  function BuildSerialize<M>(b: UniversalArtifactBuild<M>, serializeModule: M -> Result<seq<byte>, SerializeError>): (r: Result<seq<byte>, SerializeError>)
    ensures r == serializeModule(b.serializable)
  {
    match serializeModule(b.serializable)
    case Err(e) => Err(e)
    case Ok(serialized) =>
      var metadataBinary: seq<byte> := [];
      assert metadataBinary + serialized == serialized;
      Ok(metadataBinary + serialized)
  }

  /** `from_serializable`: a build holding the given module. */
  function FromSerializable<M>(serializable: M): (r: UniversalArtifactBuild<M>)
    ensures r.serializable == serializable
  {
    UniversalArtifactBuild(serializable)
  }

  /** `TryFrom<UniversalArtifactBuildRef>` for the build: deserializes the
      archived module the reference's bytes hold. */
  function BuildTryFromRef<M>(r: UniversalArtifactBuildRef, deserializeModule: seq<byte> -> Result<M, DeserializeError>): (b: Result<UniversalArtifactBuild<M>, DeserializeError>)
    ensures b.Ok? <==> deserializeModule(r.bytes).Ok?
    ensures b.Ok? ==> b.value.serializable == deserializeModule(r.bytes).value
    ensures b.Err? ==> b.error == deserializeModule(r.bytes).error
  {
    match deserializeModule(r.bytes)
    case Err(e) => Err(e)
    case Ok(m) => Ok(FromSerializable(m))
  }

  /** `get_default_extension`: "wasmu" for every target triple. */
  function GetDefaultExtension<Triple>(triple: Triple): (ext: string)
    ensures ext == "wasmu"
  {
    "wasmu"
  }

  /** `new` without the compiler feature: always a code-generation error,
      whatever the engine and the bytes. */
  function New<M, Builder>(engine: Builder, data: seq<byte>): (r: Result<UniversalArtifactBuild<M>, CompileError>)
    ensures r.Err? && r.error.Codegen?
  {
    Err(Codegen(COMPILATION_DISABLED))
  }

  /** A build serialized and handed back through a reference serializes to
      the same bytes, and, when the archive deserializer inverts the
      serializer on the module, comes back as the same build. */
  lemma BuildRefRoundTrip<M>(b: UniversalArtifactBuild<M>, serializeModule: M -> Result<seq<byte>, SerializeError>, deserializeModule: seq<byte> -> Result<M, DeserializeError>)
    requires serializeModule(b.serializable).Ok?
    requires deserializeModule(serializeModule(b.serializable).value) == Ok(b.serializable)
    ensures BuildSerialize(b, serializeModule).Ok?
    ensures var r := RefTryFrom(BuildSerialize(b, serializeModule).value).value;
      && RefSerialize(r) == BuildSerialize(b, serializeModule)
      && BuildTryFromRef(r, deserializeModule) == Ok(b)
  {
  }
}
