/**
  `Texture::new` without its GL calls: the header, the payload read after it, the
  format its FourCC selects, and the mip levels handed one by one to the upload.

  `LoadTexture` is the specification for both readings of the source; the method
  `Load` is the corrected loader, proved equal to it. Corrected, every level's byte
  range is checked against the payload before anything is uploaded; as written, no
  range is checked and the upload reads wherever the offset points.
 */
module TextureLoader {
  import opened Wrappers
  import opened Integers
  import opened Readings
  import opened DdsHeader
  import opened MipChain

  /**
    What a load hands to the GPU and returns: the dimensions the loop ends with, the
    upload format, the levels in upload order and the payload they index into.
   */
  datatype Texture = Texture(width: int, height: int, format: nat, surfaces: seq<Surface>, payload: seq<Byte>)

  /**
    The bytes read after the header: `linear_size` for a single level, twice it when
    the header announces more than one, in checked `u32` arithmetic.
   */
  function PayloadSize(h: Header): (r: Result<nat, TextureError>)
    requires WellTyped(h)
    ensures r.Ok? ==> IsU32(r.value) && r.value >= h.linearSize
    ensures r.Ok? && h.mipMapCount <= 1 ==> r.value == h.linearSize
    ensures r.Ok? && h.mipMapCount > 1 ==> r.value == 2 * h.linearSize
    ensures r.Err? <==> h.mipMapCount > 1 && !IsU32(2 * h.linearSize)
    ensures r.Err? ==> r.error == ArithmeticOverflow
  {
    if h.mipMapCount > 1 then
      if IsU32(h.linearSize * 2) then Ok(h.linearSize * 2) else Err(ArithmeticOverflow)
    else Ok(h.linearSize)
  }

  /** The bytes a surface's upload reads lie inside a payload of `n` bytes. */
  predicate Inside(s: Surface, n: int) {
    0 <= s.size && 0 <= s.offset && s.offset + s.size <= n
  }

  /** The position of the first surface whose bytes are not inside the payload, or `|surfaces|`. */
  function FirstOutside(surfaces: seq<Surface>, n: int): (i: nat)
    ensures i <= |surfaces|
    ensures forall j :: 0 <= j < i ==> Inside(surfaces[j], n)
    ensures i < |surfaces| ==> !Inside(surfaces[i], n)
  {
    if |surfaces| == 0 then 0
    else if !Inside(surfaces[0], n) then 0
    else 1 + FirstOutside(surfaces[1..], n)
  }

  /**
    `Texture::new` on the file's bytes. The header fails first, then the payload size,
    then the payload read, then the level loop; corrected, a level outside the payload
    fails the load before any upload.
   */
  function LoadTexture(reading: Reading, file: seq<Byte>): (r: Result<Texture, TextureError>)
    ensures r == Err(TruncatedHeader) <==> |file| < HeaderSize
    ensures r.Ok? ==> HeaderSize + |r.value.payload| <= |file|
    ensures r.Ok? ==> r.value.payload == file[HeaderSize..HeaderSize + |r.value.payload|]
    ensures r.Ok? ==> r.value.format != CompressedRgbDxt1
    ensures r.Ok? && reading.Intended? ==>
      forall k :: 0 <= k < |r.value.surfaces| ==> Inside(r.value.surfaces[k], |r.value.payload|)
  {
    match DecodeHeader(reading, file)
    case Err(e) => Err(e)
    case Ok(h) =>
      match PayloadSize(h)
      case Err(e) => Err(e)
      case Ok(n) =>
        if |file| - HeaderSize < n then Err(TruncatedPayload)
        else
          var format := FormatOf(h.fourCc);
          match Walk(reading, 0, U32AsI32(h.mipMapCount), h.width, h.height, BlockSize(format), 0)
          case Err(e) => Err(e)
          case Ok(chain) =>
            var i := FirstOutside(chain.surfaces, n);
            if reading.Intended? && i < |chain.surfaces| then Err(LevelOutsidePayload(chain.surfaces[i].level))
            else Ok(Texture(chain.width, chain.height, format, chain.surfaces, file[HeaderSize..HeaderSize + n]))
  }

  /**
    `Texture::new` with the file system as a parameter: `file` is the file's bytes, or
    `None` when it cannot be opened.
   */
  function NewTexture(reading: Reading, file: Option<seq<Byte>>): (r: Result<Texture, TextureError>)
    ensures file.None? ==> r == Err(Unreadable)
    ensures file.Some? ==> r == LoadTexture(reading, file.value)
  {
    match file
    case None => Err(Unreadable)
    case Some(bytes) => LoadTexture(reading, bytes)
  }

  /** The corrected `Texture::new`: header, payload, the level loop, then the range check. */
  method Load(file: seq<Byte>) returns (r: Result<Texture, TextureError>)
    ensures r == LoadTexture(Intended, file)
  {
    var header := DecodeHeader(Intended, file);
    if header.Err? {
      return Err(header.error);
    }
    var h := header.value;
    var n := PayloadSize(h);
    if n.Err? {
      return Err(n.error);
    }
    if |file| - HeaderSize < n.value {
      return Err(TruncatedPayload);
    }
    var format := FormatOf(h.fourCc);
    var chain := MipLevels(U32AsI32(h.mipMapCount), h.width, h.height, BlockSize(format));
    if chain.Err? {
      return Err(chain.error);
    }
    var surfaces := chain.value.surfaces;
    var i := 0;
    while i < |surfaces|
      invariant 0 <= i <= |surfaces|
      invariant forall j :: 0 <= j < i ==> Inside(surfaces[j], n.value)
    {
      if !Inside(surfaces[i], n.value) {
        assert FirstOutside(surfaces, n.value) == i;
        return Err(LevelOutsidePayload(surfaces[i].level));
      }
      i := i + 1;
    }
    assert FirstOutside(surfaces, n.value) == |surfaces|;
    r := Ok(Texture(chain.value.width, chain.value.height, format, surfaces, file[HeaderSize..HeaderSize + n.value]));
  }

  // ---------------------------------------------------------------------------
  // Properties of the whole load

  /**
    A file whose header is complete but which holds fewer bytes after it than the
    payload size announces fails with `TruncatedPayload`, whichever reading.
   */
  lemma ShortPayloadIsError(reading: Reading, file: seq<Byte>, h: Header, n: nat)
    requires DecodeHeader(reading, file) == Ok(h)
    requires PayloadSize(h) == Ok(n)
    requires |file| < HeaderSize + n
    ensures LoadTexture(reading, file) == Err(TruncatedPayload)
  {
  }

  /** A load assembled from its parts: the header, the payload size, and the walk. */
  lemma LoadFromParts(reading: Reading, file: seq<Byte>, h: Header, n: nat, c: Chain)
    requires DecodeHeader(reading, file) == Ok(h)
    requires PayloadSize(h) == Ok(n) && HeaderSize + n <= |file|
    requires Walk(reading, 0, U32AsI32(h.mipMapCount), h.width, h.height, BlockSize(FormatOf(h.fourCc)), 0) == Ok(c)
    requires reading.AsWritten? || FirstOutside(c.surfaces, n) == |c.surfaces|
    ensures LoadTexture(reading, file) == Ok(Texture(c.width, c.height, FormatOf(h.fourCc), c.surfaces, file[HeaderSize..HeaderSize + n]))
  {
  }

  /** The parts of a successful load: the payload size, the format and the walk it came from. */
  lemma PartsOfLoad(reading: Reading, file: seq<Byte>, h: Header, t: Texture)
    requires DecodeHeader(reading, file) == Ok(h)
    requires LoadTexture(reading, file) == Ok(t)
    ensures PayloadSize(h) == Ok(|t.payload|)
    ensures t.format == FormatOf(h.fourCc)
    ensures Walk(reading, 0, U32AsI32(h.mipMapCount), h.width, h.height, BlockSize(t.format), 0)
      == Ok(Chain(t.surfaces, t.width, t.height))
  {
  }

  /**
    The levels of a walk from offset 0 whose sizes are not negative lie end to end:
    the first at offset 0, each next one where its predecessor ends.
   */
  lemma ChainIsContiguous(reading: Reading, levels: int, width: int, height: int, blockSize: int, c: Chain)
    requires IsI32(width) && IsI32(height) && IsBlockSize(blockSize)
    requires Walk(reading, 0, levels, width, height, blockSize, 0) == Ok(c)
    requires forall k :: 0 <= k < |c.surfaces| ==> c.surfaces[k].size >= 0
    ensures var s := c.surfaces;
      && (|s| > 0 ==> s[0].offset == 0)
      && (forall k :: 0 <= k < |s| - 1 ==> s[k + 1].offset == s[k].offset + s[k].size)
  {
    WalkOffsetsArePrefixSums(reading, 0, levels, width, height, blockSize, 0);
    var s := c.surfaces;
    assert s[..0] == [];
    forall k | 0 <= k < |s| - 1
      ensures s[k + 1].offset == s[k].offset + s[k].size
    {
      assert s[..k + 1] == s[..k] + [s[k]];
    }
  }

  /**
    The shape of an intended walk from level 0: levels numbered from 0, each sized by
    its blocks, each half its predecessor, at most `levels` of them.
   */
  lemma ChainShape(levels: int, width: int, height: int, blockSize: int, c: Chain)
    requires IsI32(width) && IsI32(height) && IsBlockSize(blockSize)
    requires Walk(Intended, 0, levels, width, height, blockSize, 0) == Ok(c)
    ensures var s := c.surfaces;
      && (forall k :: 0 <= k < |s| ==> s[k].level == k)
      && (forall k :: 0 <= k < |s| ==> Sized(s[k], blockSize))
      && (|s| > 0 ==> s[0].width == width && s[0].height == height)
      && (forall k :: 0 <= k < |s| - 1 ==> s[k + 1].width == Half(s[k].width) && s[k + 1].height == Half(s[k].height))
      && (|s| > 0 ==> c.width == Half(s[|s| - 1].width) && c.height == Half(s[|s| - 1].height))
      && |s| <= Positive(levels)
  {
    WalkNumbersLevels(Intended, 0, levels, width, height, blockSize, 0);
    WalkSizesLevels(Intended, 0, levels, width, height, blockSize, 0);
    WalkHalvesDimensions(Intended, 0, levels, width, height, blockSize, 0);
    WalkStops(0, levels, width, height, blockSize, 0);
  }

  /**
    A loaded texture's surfaces are the mip chain of its header: levels numbered from
    0, each sized by its blocks, each half its predecessor, laid end to end from the
    start of the payload, the first with the header's dimensions, no more than the mip
    count; the texture's width and height are half the last level's.
   */
  lemma LoadedSurfacesFormTheMipChain(file: seq<Byte>, h: Header, t: Texture)
    requires DecodeHeader(Intended, file) == Ok(h)
    requires LoadTexture(Intended, file) == Ok(t)
    ensures t.format == FormatOf(h.fourCc)
    ensures PayloadSize(h) == Ok(|t.payload|)
    ensures var s := t.surfaces;
      && (forall k :: 0 <= k < |s| ==> s[k].level == k)
      && (forall k :: 0 <= k < |s| ==> Sized(s[k], BlockSize(t.format)))
      && (|s| > 0 ==> s[0].width == h.width && s[0].height == h.height && s[0].offset == 0)
      && (forall k :: 0 <= k < |s| - 1 ==> s[k + 1].width == Half(s[k].width) && s[k + 1].height == Half(s[k].height))
      && (forall k :: 0 <= k < |s| - 1 ==> s[k + 1].offset == s[k].offset + s[k].size)
      && (|s| > 0 ==> t.width == Half(s[|s| - 1].width) && t.height == Half(s[|s| - 1].height))
      && |s| <= Positive(U32AsI32(h.mipMapCount))
  {
    PartsOfLoad(Intended, file, h, t);
    var c := Chain(t.surfaces, t.width, t.height);
    ChainShape(U32AsI32(h.mipMapCount), h.width, h.height, BlockSize(t.format), c);
    ChainIsContiguous(Intended, U32AsI32(h.mipMapCount), h.width, h.height, BlockSize(t.format), c);
  }

  /**
    Corrected, a file whose header announces at most 16384 x 16384 texels and whose
    payload is all there loads unless a level lies outside the payload: whatever its
    mip count, no size or offset overflows.
   */
  lemma ModestTextureLoadsUnlessOutside(file: seq<Byte>, h: Header, n: nat)
    requires DecodeHeader(Intended, file) == Ok(h)
    requires 0 <= h.width <= ModestExtent && 0 <= h.height <= ModestExtent
    requires PayloadSize(h) == Ok(n) && HeaderSize + n <= |file|
    ensures LoadTexture(Intended, file).Ok? || LoadTexture(Intended, file).error.LevelOutsidePayload?
  {
    ModestTextureWalks(Intended, U32AsI32(h.mipMapCount), h.width, h.height, BlockSize(FormatOf(h.fourCc)));
  }

  /**
    A 64 x 64 DXT1 texture with one mip level and its 2048-byte payload loads as one
    2048-byte level covering the whole payload, and the loop ends at 32 x 32.
   */
  lemma DxtOneTextureLoads()
    ensures
      var h := Header(64, 64, 2048, 1, FourCcDxt1);
      LoadTexture(Intended, EncodeHeader(h) + Zeros(2048))
        == Ok(Texture(32, 32, CompressedRgbaDxt1, [Surface(0, 64, 64, 2048, 0)], Zeros(2048)))
  {
    var h := Header(64, 64, 2048, 1, FourCcDxt1);
    var file := EncodeHeader(h) + Zeros(2048);
    DecodeEncodedHeader(h, Zeros(2048));
    assert U32AsI32(1) == 1;
    SingleLevelTexture();
    assert file[HeaderSize..HeaderSize + 2048] == Zeros(2048);
    assert Inside(Surface(0, 64, 64, 2048, 0), 2048);
    assert FirstOutside([Surface(0, 64, 64, 2048, 0)], 2048) == 1;
  }

  /**
    As written, the same file reads as a 64 x 64 texture whose linear size is the low
    byte of 2048, that is 0: the payload read is empty, yet the never-advancing loop
    uploads seven levels, all as level 0, the first of them 2048 bytes from offset 0
    of that empty payload.
   */
  lemma DxtOneTextureReadsPastPayloadAsWritten()
    ensures
      var h := Header(64, 64, 2048, 1, FourCcDxt1);
      LoadTexture(AsWritten, EncodeHeader(h) + Zeros(2048)) == Ok(Texture(0, 0, CompressedRgbaDxt1, [
        Surface(0, 64, 64, 2048, 0), Surface(0, 32, 32, 512, 2048), Surface(0, 16, 16, 128, 2560),
        Surface(0, 8, 8, 32, 2688), Surface(0, 4, 4, 8, 2720), Surface(0, 2, 2, 8, 2728),
        Surface(0, 1, 1, 8, 2736)], []))
    ensures !Inside(Surface(0, 64, 64, 2048, 0), 0)
  {
    var h := Header(64, 64, 2048, 1, FourCcDxt1);
    var file := EncodeHeader(h) + Zeros(2048);
    var read := Header(64, 64, 0, 1, 0x44);
    DecodeKeepsLowBytesAsWritten(h, Zeros(2048));
    assert DecodeHeader(AsWritten, file) == Ok(read);
    assert PayloadSize(read) == Ok(0);
    assert FormatOf(0x44) == CompressedRgbaDxt1;
    assert U32AsI32(1) == 1;
    LevelNeverAdvancesAsWritten();
    assert file[HeaderSize..HeaderSize] == [];
    LoadFromParts(AsWritten, file, read, 0, Walk(AsWritten, 0, 1, 64, 64, 8, 0).value);
  }
}
