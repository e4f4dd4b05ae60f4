/**
  The header of a DirectDraw Surface texture as `Texture::new` reads it: 124 bytes
  from the start of the file, five fields at fixed offsets, and the S3TC format
  and block size the FourCC field selects.
 */
module DdsHeader {
  import opened Wrappers
  import opened Integers
  import opened Readings

  type Byte = b: int | 0 <= b < 256

  /** The header is read whole, before any field, from the first bytes of the file. */
  const HeaderSize: nat := 124

  const HeightOffset: nat := 8
  const WidthOffset: nat := 12
  const LinearSizeOffset: nat := 16
  const MipMapCountOffset: nat := 24
  const FourCcOffset: nat := 80

  /** The FourCC codes of the three S3TC compressions: the ASCII tags `DXT1`, `DXT3`, `DXT5`. */
  const FourCcDxt1: nat := 0x31545844
  const FourCcDxt3: nat := 0x33545844
  const FourCcDxt5: nat := 0x35545844

  /** The `EXT_texture_compression_s3tc` internal formats. */
  const CompressedRgbDxt1: nat := 0x83F0
  const CompressedRgbaDxt1: nat := 0x83F1
  const CompressedRgbaDxt3: nat := 0x83F2
  const CompressedRgbaDxt5: nat := 0x83F3

  /** Every way a texture load can fail. No failure returns a partial texture. */
  datatype TextureError =
    | Unreadable                       // the file cannot be opened
    | TruncatedHeader                  // `read_exact` of the header hits the end of the file
    | TruncatedPayload                 // `read_exact` of the payload hits the end of the file
    | ArithmeticOverflow               // a checked `i32` or `u32` operation overflows
    | LevelOutsidePayload(level: int)  // a mip level's byte range is not inside the payload

  /** The five header fields the loader uses: two `i32` dimensions and three `u32` counts. */
  datatype Header = Header(height: int, width: int, linearSize: int, mipMapCount: int, fourCc: int)

  /** The ranges the fields' Rust types give them. */
  predicate WellTyped(h: Header) {
    IsI32(h.height) && IsI32(h.width) && IsU32(h.linearSize) && IsU32(h.mipMapCount) && IsU32(h.fourCc)
  }

  // ---------------------------------------------------------------------------
  // Fields

  /** The little-endian `u32` at `offset`. */
  function U32At(bytes: seq<Byte>, offset: nat): (x: int)
    requires offset + 4 <= |bytes|
    ensures IsU32(x)
    ensures x % 0x100 == bytes[offset] && x / 0x100_0000 == bytes[offset + 3]
  {
    bytes[offset] as int + 0x100 * bytes[offset + 1] as int
    + 0x1_0000 * bytes[offset + 2] as int + 0x100_0000 * bytes[offset + 3] as int
  }

  /**
    The header of a file, or `TruncatedHeader` when the file is shorter than it.
    As written, each field is the one byte at its offset (`*ptr.offset(k) as i32`
    dereferences a `*const u8`); corrected, it is the little-endian 32-bit word there.
   */
  function DecodeHeader(reading: Reading, bytes: seq<Byte>): (r: Result<Header, TextureError>)
    ensures r.Err? <==> |bytes| < HeaderSize
    ensures r.Err? ==> r.error == TruncatedHeader
    ensures r.Ok? ==> WellTyped(r.value)
  {
    if |bytes| < HeaderSize then Err(TruncatedHeader)
    else if reading.AsWritten? then
      Ok(Header(bytes[HeightOffset], bytes[WidthOffset], bytes[LinearSizeOffset],
                bytes[MipMapCountOffset], bytes[FourCcOffset]))
    else
      Ok(Header(U32AsI32(U32At(bytes, HeightOffset)), U32AsI32(U32At(bytes, WidthOffset)),
                U32At(bytes, LinearSizeOffset), U32At(bytes, MipMapCountOffset), U32At(bytes, FourCcOffset)))
  }

  // ---------------------------------------------------------------------------
  // The writer the decoder inverts

  /** The four little-endian bytes of a `u32`. */
  function EncodeU32(x: int): (bs: seq<Byte>)
    requires IsU32(x)
    ensures |bs| == 4
  {
    [x % 0x100, x / 0x100 % 0x100, x / 0x1_0000 % 0x100, x / 0x100_0000]
  }

  function Zeros(n: nat): (bs: seq<Byte>)
    ensures |bs| == n
  {
    seq(n, _ => 0)
  }

  /** A header with the five fields at their offsets and zero everywhere else. */
  function EncodeHeader(h: Header): (bs: seq<Byte>)
    requires WellTyped(h)
    ensures |bs| == HeaderSize
  {
    Zeros(8) + EncodeU32(I32AsU32(h.height)) + EncodeU32(I32AsU32(h.width)) + EncodeU32(h.linearSize)
    + Zeros(4) + EncodeU32(h.mipMapCount) + Zeros(52) + EncodeU32(h.fourCc) + Zeros(40)
  }

  lemma DecodeEncodedU32(x: int)
    requires IsU32(x)
    ensures U32At(EncodeU32(x), 0) == x
  {
    var bs := EncodeU32(x);
    assert x == x % 0x100 + 0x100 * (x / 0x100);
    assert x / 0x100 == x / 0x100 % 0x100 + 0x100 * (x / 0x1_0000);
    assert x / 0x1_0000 == x / 0x1_0000 % 0x100 + 0x100 * (x / 0x100_0000);
  }

  /** Encoding the word read at `offset` gives back the four bytes there. */
  lemma EncodeDecodedU32(bytes: seq<Byte>, offset: nat)
    requires offset + 4 <= |bytes|
    ensures EncodeU32(U32At(bytes, offset)) == bytes[offset..offset + 4]
  {
    var x := U32At(bytes, offset);
    var b0: int, b1: int, b2: int, b3: int := bytes[offset], bytes[offset + 1], bytes[offset + 2], bytes[offset + 3];
    var high := b1 + 0x100 * b2 + 0x1_0000 * b3;
    assert x == b0 + 0x100 * high;
    assert x / 0x100 == high;
    assert high / 0x100 == b2 + 0x100 * b3;
    assert x / 0x1_0000 == high / 0x100;
  }

  /**
    Whatever the file holds, each field the corrected decoder returns is the
    little-endian word at its own offset: encoding it gives back the four bytes there.
   */
  lemma FieldsAreWordsAtOffsets(bytes: seq<Byte>)
    requires |bytes| >= HeaderSize
    ensures var h := DecodeHeader(Intended, bytes).value;
      && EncodeU32(I32AsU32(h.height)) == bytes[HeightOffset..HeightOffset + 4]
      && EncodeU32(I32AsU32(h.width)) == bytes[WidthOffset..WidthOffset + 4]
      && EncodeU32(h.linearSize) == bytes[LinearSizeOffset..LinearSizeOffset + 4]
      && EncodeU32(h.mipMapCount) == bytes[MipMapCountOffset..MipMapCountOffset + 4]
      && EncodeU32(h.fourCc) == bytes[FourCcOffset..FourCcOffset + 4]
  {
    EncodeDecodedU32(bytes, HeightOffset);
    EncodeDecodedU32(bytes, WidthOffset);
    EncodeDecodedU32(bytes, LinearSizeOffset);
    EncodeDecodedU32(bytes, MipMapCountOffset);
    EncodeDecodedU32(bytes, FourCcOffset);
  }

  /** The word at `offset` depends only on the four bytes there. */
  lemma U32AtSlice(bytes: seq<Byte>, offset: nat)
    requires offset + 4 <= |bytes|
    ensures U32At(bytes, offset) == U32At(bytes[offset..offset + 4], 0)
  {
  }

  /** Where each field sits in an encoded header. */
  lemma EncodedFields(h: Header, payload: seq<Byte>)
    requires WellTyped(h)
    ensures
      var bs := EncodeHeader(h) + payload;
      && bs[HeightOffset..HeightOffset + 4] == EncodeU32(I32AsU32(h.height))
      && bs[WidthOffset..WidthOffset + 4] == EncodeU32(I32AsU32(h.width))
      && bs[LinearSizeOffset..LinearSizeOffset + 4] == EncodeU32(h.linearSize)
      && bs[MipMapCountOffset..MipMapCountOffset + 4] == EncodeU32(h.mipMapCount)
      && bs[FourCcOffset..FourCcOffset + 4] == EncodeU32(h.fourCc)
  {
  }

  /**
    Decoding a written header gives back its fields, whatever payload follows it:
    the corrected decoder reads each field from its offset, little-endian.
   */
  lemma DecodeEncodedHeader(h: Header, payload: seq<Byte>)
    requires WellTyped(h)
    ensures DecodeHeader(Intended, EncodeHeader(h) + payload) == Ok(h)
  {
    var bs := EncodeHeader(h) + payload;
    EncodedFields(h, payload);
    U32AtSlice(bs, HeightOffset);
    U32AtSlice(bs, WidthOffset);
    U32AtSlice(bs, LinearSizeOffset);
    U32AtSlice(bs, MipMapCountOffset);
    U32AtSlice(bs, FourCcOffset);
    DecodeEncodedU32(I32AsU32(h.height));
    DecodeEncodedU32(I32AsU32(h.width));
    DecodeEncodedU32(h.linearSize);
    DecodeEncodedU32(h.mipMapCount);
    DecodeEncodedU32(h.fourCc);
  }

  /**
    As written, each field decodes to the low byte of what was written: a header of
    a 256 x 256 texture reads as 0 x 0, and any field above 255 is lost.
   */
  lemma DecodeKeepsLowBytesAsWritten(h: Header, payload: seq<Byte>)
    requires WellTyped(h)
    ensures DecodeHeader(AsWritten, EncodeHeader(h) + payload)
      == Ok(Header(I32AsU32(h.height) % 0x100, I32AsU32(h.width) % 0x100, h.linearSize % 0x100,
                   h.mipMapCount % 0x100, h.fourCc % 0x100))
  {
    EncodedFields(h, payload);
    var bs := EncodeHeader(h) + payload;
    assert bs[HeightOffset] == EncodeU32(I32AsU32(h.height))[0];
    assert bs[WidthOffset] == EncodeU32(I32AsU32(h.width))[0];
    assert bs[LinearSizeOffset] == EncodeU32(h.linearSize)[0];
    assert bs[MipMapCountOffset] == EncodeU32(h.mipMapCount)[0];
    assert bs[FourCcOffset] == EncodeU32(h.fourCc)[0];
  }

  // ---------------------------------------------------------------------------
  // Format and block size

  /** Four ASCII characters packed into a `u32`, first character in the low byte. */
  function PackFourCc(tag: string): (x: int)
    requires |tag| == 4 && forall i :: 0 <= i < 4 ==> tag[i] as int < 0x100
    ensures IsU32(x)
  {
    tag[0] as int + 0x100 * tag[1] as int + 0x1_0000 * tag[2] as int + 0x100_0000 * tag[3] as int
  }

  /** Each FourCC constant is its tag packed little-endian. */
  lemma FourCcConstantsSpellTheirTags()
    ensures FourCcDxt1 == PackFourCc("DXT1")
    ensures FourCcDxt3 == PackFourCc("DXT3")
    ensures FourCcDxt5 == PackFourCc("DXT5")
  {
  }

  /**
    The S3TC format a FourCC selects. `DXT3` and `DXT5` select their own; every other
    code, `DXT1` included, selects RGBA DXT1. RGB DXT1 is never selected.
   */
  function FormatOf(fourCc: int): (format: nat)
    ensures format == CompressedRgbaDxt3 <==> fourCc == FourCcDxt3
    ensures format == CompressedRgbaDxt5 <==> fourCc == FourCcDxt5
    ensures format == CompressedRgbaDxt1 <==> fourCc != FourCcDxt3 && fourCc != FourCcDxt5
    ensures format != CompressedRgbDxt1
  {
    if fourCc == FourCcDxt1 then CompressedRgbaDxt1
    else if fourCc == FourCcDxt3 then CompressedRgbaDxt3
    else if fourCc == FourCcDxt5 then CompressedRgbaDxt5
    else CompressedRgbaDxt1
  }

  /** Bytes per 4 x 4 block: 8 for the DXT1 format, 16 for any other. */
  function BlockSize(format: nat): (size: nat)
    ensures size == 8 || size == 16
    ensures size == 8 <==> format == CompressedRgbaDxt1
  {
    if format == CompressedRgbaDxt1 then 8 else 16
  }

  /** The block size a FourCC leads to: 16 bytes for `DXT3` and `DXT5`, 8 for every other code. */
  lemma BlockSizeOfFourCc(fourCc: int)
    ensures BlockSize(FormatOf(fourCc)) == 16 <==> fourCc == FourCcDxt3 || fourCc == FourCcDxt5
    ensures BlockSize(FormatOf(fourCc)) == 8 <==> fourCc != FourCcDxt3 && fourCc != FourCcDxt5
  {
  }

  /**
    As written, the FourCC is one byte, never one of the three codes, so every
    texture is taken for RGBA DXT1 with 8-byte blocks, `DXT3` and `DXT5` files included.
   */
  lemma FormatIsAlwaysDxt1AsWritten(bytes: seq<Byte>)
    requires |bytes| >= HeaderSize
    ensures FormatOf(DecodeHeader(AsWritten, bytes).value.fourCc) == CompressedRgbaDxt1
    ensures BlockSize(FormatOf(DecodeHeader(AsWritten, bytes).value.fourCc)) == 8
  {
  }
}
