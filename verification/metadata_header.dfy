/** `MetadataHeader` of the serialized-artifact format: a 16-byte record made
    of an 8-byte magic, a `u32` ABI version and a `u32` payload length, laid
    out in that order with no padding (`#[repr(C)]`). The source converts
    between the record and its bytes with `mem::transmute`, which is
    native-endian; the model fixes little-endian. The address of the buffer
    handed to `parse` is an explicit parameter. */
module MetadataHeader {
  import opened Wrappers
  import opened Errors
  import opened Bytes

  /** The ABI version this code writes and accepts. */
  const CURRENT_VERSION: nat := 1

  /** "WASMER\0\0" */
  const MAGIC: seq<byte> := [0x57, 0x41, 0x53, 0x4D, 0x45, 0x52, 0x00, 0x00]

  /** Byte length of the header. */
  const LEN: nat := 16

  /** Alignment the header's buffer must have. */
  const ALIGN: nat := 16

  const EXCEEDS_MAX_LEN := "metadata exceeds maximum length"
  const MISALIGNED := "misaligned metadata"
  const INVALID_HEADER := "invalid metadata header"
  const NOT_WASMER := "The provided bytes were not serialized by Wasmer"
  const INCOMPATIBLE_VERSION := "The provided bytes were serialized by an incompatible version of Wasmer"

  /** The header record; `version` and `len` are `u32` fields. */
  datatype Header = Header(magic: seq<byte>, version: nat, len: nat)

  /** A record the Rust struct can hold: an 8-byte magic and two `u32`s. */
  predicate WellFormed(h: Header) {
    |h.magic| == 8 && h.version <= U32_MAX && h.len <= U32_MAX
  }

  /** The bytes of the record in memory (`transmute::<Self, [u8; 16]>`). */
  function Layout(h: Header): (r: seq<byte>)
    requires WellFormed(h)
    ensures |r| == LEN
  {
    Pow256Four();
    h.magic + ToLE(h.version, 4) + ToLE(h.len, 4)
  }

  /** The record 16 bytes denote (`transmute::<[u8; 16], Self>`). */
  function View(bytes: seq<byte>): (h: Header)
    requires |bytes| == LEN
    ensures WellFormed(h)
  {
    Pow256Four();
    Header(bytes[..8], FromLE(bytes[8..12]), FromLE(bytes[12..16]))
  }

  /** Reading back the bytes of a record gives the record. */
  lemma ViewOfLayout(h: Header)
    requires WellFormed(h)
    ensures View(Layout(h)) == h
  {
    Pow256Four();
    var b := Layout(h);
    assert b[8..12] == ToLE(h.version, 4);
    assert b[12..16] == ToLE(h.len, 4);
    FromLEToLE(h.version, 4);
    FromLEToLE(h.len, 4);
  }

  /** Every 16 bytes are the layout of the record they denote: the
      conversion loses nothing in either direction. */
  lemma LayoutOfView(bytes: seq<byte>)
    requires |bytes| == LEN
    ensures Layout(View(bytes)) == bytes
  {
    Pow256Four();
    ToLEFromLE(bytes[8..12]);
    ToLEFromLE(bytes[12..16]);
    assert bytes == bytes[..8] + bytes[8..12] + bytes[12..16];
  }

  /** `MetadataHeader::new(len)`: the header for a payload of `len` bytes.
      The conversion of `len` to `u32` panics when it does not fit. */
  function New(len: nat): (r: Result<seq<byte>, Panic>)
    ensures r.Err? <==> len > U32_MAX
    ensures r.Err? ==> r.error == Panic(EXCEEDS_MAX_LEN)
    ensures r.Ok? ==> |r.value| == LEN && r.value[..8] == MAGIC
    ensures r.Ok? ==> FromLE(r.value[8..12]) == CURRENT_VERSION
    ensures r.Ok? ==> FromLE(r.value[12..16]) == len
  {
    if len > U32_MAX then
      Err(Panic(EXCEEDS_MAX_LEN))
    else
      var h := Header(MAGIC, CURRENT_VERSION, len);
      ViewOfLayout(h);
      Ok(Layout(h))
  }

  /** `MetadataHeader::parse(bytes)` for a buffer starting at `address`:
      the payload length the header announces, or why the buffer is refused.
      The checks run in a fixed order: alignment, length, magic, version. */
  function Parse(address: nat, bytes: seq<byte>): (r: Result<nat, DeserializeError>)
    ensures r.Ok? <==> address % ALIGN == 0 && |bytes| >= LEN && exists len :: New(len) == Ok(bytes[..LEN])
    ensures r.Ok? ==> New(r.value) == Ok(bytes[..LEN])
    ensures r.Err? ==> (r.error.CorruptedBinary? <==> address % ALIGN != 0 || |bytes| < LEN)
  {
    if address % ALIGN != 0 then
      Err(CorruptedBinary(MISALIGNED))
    else if |bytes| < LEN then
      Err(CorruptedBinary(INVALID_HEADER))
    else
      var header := View(bytes[..LEN]);
      LayoutOfView(bytes[..LEN]);
      ViewOfLayout(Header(MAGIC, CURRENT_VERSION, header.len));
      assert forall len :: New(len) == Ok(bytes[..LEN]) ==> View(bytes[..LEN]) == Header(MAGIC, CURRENT_VERSION, len) by {
        forall len | New(len) == Ok(bytes[..LEN]) {
          ViewOfLayout(Header(MAGIC, CURRENT_VERSION, len));
        }
      }
      if header.magic != MAGIC then
        Err(Incompatible(NOT_WASMER))
      else if header.version != CURRENT_VERSION then
        Err(Incompatible(INCOMPATIBLE_VERSION))
      else
        Ok(header.len)
  }

  /** Round trip: an aligned buffer that starts with the header `new` writes
      for `len` parses to `len`, whatever follows the header. */
  lemma ParseNew(address: nat, len: nat, rest: seq<byte>)
    requires address % ALIGN == 0
    requires New(len).Ok?
    ensures Parse(address, New(len).value + rest) == Ok(len)
  {
    var bytes := New(len).value + rest;
    assert bytes[..LEN] == New(len).value;
  }

  /** `parse` looks at the first 16 bytes only: bytes after them never change
      its result. */
  lemma ParseIgnoresTrailing(address: nat, bytes: seq<byte>, rest: seq<byte>)
    requires |bytes| >= LEN
    ensures Parse(address, bytes + rest) == Parse(address, bytes[..LEN])
  {
    assert (bytes + rest)[..LEN] == bytes[..LEN];
    assert bytes[..LEN][..LEN] == bytes[..LEN];
  }

  /** A misaligned buffer is refused as corrupted before anything else is
      looked at, whatever its contents. */
  lemma ParseRejectsMisaligned(address: nat, bytes: seq<byte>)
    requires address % ALIGN != 0
    ensures Parse(address, bytes) == Err(CorruptedBinary(MISALIGNED))
  {
  }

  /** An aligned buffer shorter than the header is refused as corrupted. */
  lemma ParseRejectsShort(address: nat, bytes: seq<byte>)
    requires address % ALIGN == 0 && |bytes| < LEN
    ensures Parse(address, bytes) == Err(CorruptedBinary(INVALID_HEADER))
  {
  }

  /** A header with a foreign magic is refused as incompatible, and the
      magic is checked before the version: the version field does not matter. */
  lemma ParseRejectsForeignMagic(address: nat, h: Header, rest: seq<byte>)
    requires address % ALIGN == 0 && WellFormed(h) && h.magic != MAGIC
    ensures Parse(address, Layout(h) + rest) == Err(Incompatible(NOT_WASMER))
  {
    assert (Layout(h) + rest)[..LEN] == Layout(h);
    ViewOfLayout(h);
  }

  /** A Wasmer header of any other ABI version is refused as incompatible. */
  lemma ParseRejectsOtherVersion(address: nat, h: Header, rest: seq<byte>)
    requires address % ALIGN == 0 && WellFormed(h) && h.magic == MAGIC
    requires h.version != CURRENT_VERSION
    ensures Parse(address, Layout(h) + rest) == Err(Incompatible(INCOMPATIBLE_VERSION))
  {
    assert (Layout(h) + rest)[..LEN] == Layout(h);
    ViewOfLayout(h);
  }

  /** Distinct lengths give distinct headers. */
  lemma NewInjective(a: nat, b: nat)
    requires New(a).Ok? && New(b).Ok?
    ensures New(a) == New(b) <==> a == b
  {
  }
}
