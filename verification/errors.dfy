/** The error values the modelled code returns or aborts with. */
module Errors {

  /** The variants of `wasmer_types::DeserializeError` that the modelled code
      produces. */
  datatype DeserializeError =
    | CorruptedBinary(message: string)
    | Incompatible(message: string)

  /** `wasmer_types::SerializeError`, produced only by the (opaque) module
      serializer; its message is all the model keeps. */
  datatype SerializeError = SerializeError(message: string)

  /** The variant of `wasmer_types::CompileError` that the modelled code
      produces. */
  datatype CompileError = Codegen(message: string)

  /** A Rust panic (`expect`, `assert_eq!`, out-of-bounds indexing) with its
      message. */
  datatype Panic = Panic(message: string)
}
