/**
  The mip-level loop of `Texture::new`: from the header's dimensions and mip count,
  the byte size and payload offset of each level handed to the upload call.

  `Walk` is the specification, level by level; the method `MipLevels` is the
  `while` loop that updates `offset`, `width` and `height`, proved equal to it.
  Arithmetic is Rust's in a debug build: the `i32` size expression and the `u32`
  offset are checked, and an overflow is an error.
 */
module MipChain {
  import opened Wrappers
  import opened Integers
  import opened Readings
  import opened DdsHeader

  /** One level passed to the upload: its level number, dimensions, byte size and payload offset. */
  datatype Surface = Surface(level: int, width: int, height: int, size: int, offset: int)

  /** The levels emitted, and the width and height the loop ends with. */
  datatype Chain = Chain(surfaces: seq<Surface>, width: int, height: int)

  predicate IsBlockSize(blockSize: int) {
    blockSize == 8 || blockSize == 16
  }

  /** The number of 4-texel blocks that cover `extent` texels: `(extent + 3) / 4`. */
  function Blocks(extent: int): (n: int)
    requires extent <= MaxI32 - 3
    ensures extent >= 0 ==> 4 * n >= extent && 4 * (n - 1) < extent
    ensures extent >= 0 ==> n >= 0
  {
    TruncDiv(extent + 3, 4)
  }

  /** `((width + 3) / 4) * ((height + 3) / 4) * block_size` in checked `i32` arithmetic. */
  function LevelSize(width: int, height: int, blockSize: int): (r: Result<int, TextureError>)
    requires IsI32(width) && IsI32(height) && IsBlockSize(blockSize)
    ensures r.Ok? ==> IsI32(r.value)
    ensures r.Err? ==> r.error == ArithmeticOverflow
    ensures r.Ok? ==> width <= MaxI32 - 3 && height <= MaxI32 - 3
    ensures r.Ok? ==> r.value == Blocks(width) * Blocks(height) * blockSize
    ensures r.Ok? <==> width <= MaxI32 - 3 && height <= MaxI32 - 3
                       && IsI32(Blocks(width) * Blocks(height) * blockSize)
  {
    if width > MaxI32 - 3 || height > MaxI32 - 3 then Err(ArithmeticOverflow)
    else
      var blocks := Blocks(width) * Blocks(height);
      if !IsI32(blocks) || !IsI32(blocks * blockSize) then Err(ArithmeticOverflow)
      else Ok(blocks * blockSize)
  }

  /** Whether the loop runs another turn. */
  predicate Continues(level: int, levels: int, width: int, height: int) {
    level < levels && (width > 0 || height > 0)
  }

  function Positive(x: int): nat {
    if x > 0 then x else 0
  }

  /** The level counter after one turn: as written it is never incremented. */
  function NextLevel(reading: Reading, level: int): int {
    if reading.Intended? then level + 1 else level
  }

  /** Each surface's size is the block-compressed size of its dimensions. */
  predicate Sized(s: Surface, blockSize: int)
    requires IsBlockSize(blockSize)
  {
    IsI32(s.width) && IsI32(s.height) && LevelSize(s.width, s.height, blockSize) == Ok(s.size)
  }

  /** The dimension after a turn: `x /= 2`, which brings a positive value strictly closer to 0. */
  function Half(x: int): (h: int)
    ensures x >= 0 ==> h == x / 2
    ensures x < 0 ==> h == -((-x) / 2)
    ensures x > 0 ==> 0 <= h < x
    ensures x <= 0 ==> h <= 0
    ensures IsI32(x) ==> IsI32(h)
  {
    TruncDiv(x, 2)
  }

  /**
    The loop from `level` with the given dimensions and offset: the surfaces it
    emits and the dimensions it ends with, or the first overflow.
   */
  function Walk(reading: Reading, level: int, levels: int, width: int, height: int, blockSize: int, offset: int): (r: Result<Chain, TextureError>)
    requires IsI32(width) && IsI32(height) && IsBlockSize(blockSize) && IsU32(offset)
    ensures r.Ok? ==> IsI32(r.value.width) && IsI32(r.value.height)
    ensures r.Err? ==> r.error == ArithmeticOverflow
    decreases if reading.Intended? then levels - level else 0, Positive(width) + Positive(height)
  {
    if !Continues(level, levels, width, height) then Ok(Chain([], width, height))
    else
      match LevelSize(width, height, blockSize)
      case Err(e) => Err(e)
      case Ok(size) =>
        var next := offset + I32AsU32(size);
        if !IsU32(next) then Err(ArithmeticOverflow)
        else
          match Walk(reading, NextLevel(reading, level), levels, Half(width), Half(height), blockSize, next)
          case Err(e) => Err(e)
          case Ok(rest) => Ok(Chain([Surface(level, width, height, size, offset)] + rest.surfaces, rest.width, rest.height))
  }

  /** The surfaces `prefix` already emitted, followed by what the rest of the loop gives. */
  function Prepend(prefix: seq<Surface>, r: Result<Chain, TextureError>): Result<Chain, TextureError> {
    match r
    case Err(e) => Err(e)
    case Ok(c) => Ok(Chain(prefix + c.surfaces, c.width, c.height))
  }

  lemma PrependNothing(r: Result<Chain, TextureError>)
    ensures Prepend([], r) == r
  {
    if r.Ok? {
      assert [] + r.value.surfaces == r.value.surfaces;
    }
  }

  lemma PrependTwice(a: seq<Surface>, b: seq<Surface>, r: Result<Chain, TextureError>)
    ensures Prepend(a, Prepend(b, r)) == Prepend(a + b, r)
  {
    if r.Ok? {
      assert a + (b + r.value.surfaces) == a + b + r.value.surfaces;
    }
  }

  /** One turn of the loop: the surface for the current level, then the rest of the walk. */
  lemma WalkTurn(reading: Reading, level: int, levels: int, width: int, height: int, blockSize: int, offset: int, size: int)
    requires IsI32(width) && IsI32(height) && IsBlockSize(blockSize) && IsU32(offset)
    requires Continues(level, levels, width, height)
    requires LevelSize(width, height, blockSize) == Ok(size)
    requires IsU32(offset + I32AsU32(size))
    ensures Walk(reading, level, levels, width, height, blockSize, offset)
      == Prepend([Surface(level, width, height, size, offset)],
                 Walk(reading, NextLevel(reading, level), levels, Half(width), Half(height), blockSize, offset + I32AsU32(size)))
  {
  }

  /** The source's `while` loop, with the level counter advancing as intended. */
  method MipLevels(levels: int, width0: int, height0: int, blockSize: int) returns (r: Result<Chain, TextureError>)
    requires IsI32(width0) && IsI32(height0) && IsBlockSize(blockSize)
    ensures r == Walk(Intended, 0, levels, width0, height0, blockSize, 0)
  {
    var surfaces: seq<Surface> := [];
    var offset := 0;
    var level := 0;
    var width := width0;
    var height := height0;
    PrependNothing(Walk(Intended, 0, levels, width0, height0, blockSize, 0));
    while level < levels && (width > 0 || height > 0)
      invariant IsI32(width) && IsI32(height) && IsU32(offset)
      invariant Walk(Intended, 0, levels, width0, height0, blockSize, 0)
        == Prepend(surfaces, Walk(Intended, level, levels, width, height, blockSize, offset))
      decreases levels - level
    {
      var size := LevelSize(width, height, blockSize);
      if size.Err? {
        assert Walk(Intended, level, levels, width, height, blockSize, offset) == Err(size.error);
        return Err(size.error);
      }
      if !IsU32(offset + I32AsU32(size.value)) {
        assert Walk(Intended, level, levels, width, height, blockSize, offset) == Err(ArithmeticOverflow);
        return Err(ArithmeticOverflow);
      }
      var s := Surface(level, width, height, size.value, offset);
      WalkTurn(Intended, level, levels, width, height, blockSize, offset, size.value);
      PrependTwice(surfaces, [s], Walk(Intended, level + 1, levels, Half(width), Half(height), blockSize, offset + I32AsU32(size.value)));
      surfaces := surfaces + [s];
      offset := offset + I32AsU32(size.value);
      width := Half(width);
      height := Half(height);
      level := level + 1;
    }
    assert surfaces + [] == surfaces;
    r := Ok(Chain(surfaces, width, height));
  }

  // ---------------------------------------------------------------------------
  // Properties of the walk

  /** One turn of a walk whose rest is known. */
  lemma WalkTurnOnto(reading: Reading, level: int, levels: int, width: int, height: int, blockSize: int, offset: int, size: int, rest: Chain)
    requires IsI32(width) && IsI32(height) && IsBlockSize(blockSize) && IsU32(offset)
    requires Continues(level, levels, width, height)
    requires LevelSize(width, height, blockSize) == Ok(size) && size >= 0
    requires IsU32(offset + size)
    requires Walk(reading, NextLevel(reading, level), levels, Half(width), Half(height), blockSize, offset + size) == Ok(rest)
    ensures Walk(reading, level, levels, width, height, blockSize, offset)
      == Ok(Chain([Surface(level, width, height, size, offset)] + rest.surfaces, rest.width, rest.height))
  {
    WalkTurn(reading, level, levels, width, height, blockSize, offset, size);
  }

  /** A turn the walk takes when it succeeds: the level's size fits, and the rest of the walk succeeds. */
  lemma TurnOf(reading: Reading, level: int, levels: int, width: int, height: int, blockSize: int, offset: int)
    returns (size: int, rest: Chain)
    requires IsI32(width) && IsI32(height) && IsBlockSize(blockSize) && IsU32(offset)
    requires Continues(level, levels, width, height)
    requires Walk(reading, level, levels, width, height, blockSize, offset).Ok?
    ensures LevelSize(width, height, blockSize) == Ok(size)
    ensures IsU32(offset + I32AsU32(size))
    ensures Walk(reading, NextLevel(reading, level), levels, Half(width), Half(height), blockSize, offset + I32AsU32(size)) == Ok(rest)
    ensures Walk(reading, level, levels, width, height, blockSize, offset)
      == Ok(Chain([Surface(level, width, height, size, offset)] + rest.surfaces, rest.width, rest.height))
  {
    size := LevelSize(width, height, blockSize).value;
    rest := Walk(reading, NextLevel(reading, level), levels, Half(width), Half(height), blockSize, offset + I32AsU32(size)).value;
  }

  /** The walk emits nothing when the mip count is used up or neither dimension is positive. */
  lemma WalkEmitsNothing(reading: Reading, level: int, levels: int, width: int, height: int, blockSize: int, offset: int)
    requires IsI32(width) && IsI32(height) && IsBlockSize(blockSize) && IsU32(offset)
    requires levels <= level || (width <= 0 && height <= 0)
    ensures Walk(reading, level, levels, width, height, blockSize, offset) == Ok(Chain([], width, height))
  {
  }

  /**
    Surface k is at level `level + k`; as written, every surface is at the level
    the walk started at.
   */
  lemma {:induction false} WalkNumbersLevels(reading: Reading, level: int, levels: int, width: int, height: int, blockSize: int, offset: int)
    requires IsI32(width) && IsI32(height) && IsBlockSize(blockSize) && IsU32(offset)
    requires Walk(reading, level, levels, width, height, blockSize, offset).Ok?
    ensures var s := Walk(reading, level, levels, width, height, blockSize, offset).value.surfaces;
      forall k :: 0 <= k < |s| ==> s[k].level == (if reading.Intended? then level + k else level)
    decreases if reading.Intended? then levels - level else 0, Positive(width) + Positive(height)
  {
    if Continues(level, levels, width, height) {
      var size, rest := TurnOf(reading, level, levels, width, height, blockSize, offset);
      WalkNumbersLevels(reading, NextLevel(reading, level), levels, Half(width), Half(height), blockSize, offset + I32AsU32(size));
    }
  }

  /**
    Every surface is one the loop condition lets through (its level is below the mip
    count and one dimension is positive), and its size is the block-compressed size
    of its dimensions.
   */
  lemma {:induction false} WalkSizesLevels(reading: Reading, level: int, levels: int, width: int, height: int, blockSize: int, offset: int)
    requires IsI32(width) && IsI32(height) && IsBlockSize(blockSize) && IsU32(offset)
    requires Walk(reading, level, levels, width, height, blockSize, offset).Ok?
    ensures var s := Walk(reading, level, levels, width, height, blockSize, offset).value.surfaces;
      forall k :: 0 <= k < |s| ==> Sized(s[k], blockSize) && Continues(s[k].level, levels, s[k].width, s[k].height)
    decreases if reading.Intended? then levels - level else 0, Positive(width) + Positive(height)
  {
    if Continues(level, levels, width, height) {
      var size, rest := TurnOf(reading, level, levels, width, height, blockSize, offset);
      WalkSizesLevels(reading, NextLevel(reading, level), levels, Half(width), Half(height), blockSize, offset + I32AsU32(size));
    }
  }

  /**
    The first surface has the walk's dimensions, each next one half of its
    predecessor's, and the walk ends with half the last surface's dimensions.
   */
  lemma {:induction false} WalkHalvesDimensions(reading: Reading, level: int, levels: int, width: int, height: int, blockSize: int, offset: int)
    requires IsI32(width) && IsI32(height) && IsBlockSize(blockSize) && IsU32(offset)
    requires Walk(reading, level, levels, width, height, blockSize, offset).Ok?
    ensures var c := Walk(reading, level, levels, width, height, blockSize, offset).value;
      var s := c.surfaces;
      && (|s| > 0 ==> s[0].width == width && s[0].height == height)
      && (forall k :: 0 <= k < |s| - 1 ==> s[k + 1].width == Half(s[k].width) && s[k + 1].height == Half(s[k].height))
      && (|s| == 0 ==> c.width == width && c.height == height)
      && (|s| > 0 ==> c.width == Half(s[|s| - 1].width) && c.height == Half(s[|s| - 1].height))
    decreases if reading.Intended? then levels - level else 0, Positive(width) + Positive(height)
  {
    if Continues(level, levels, width, height) {
      var size, rest := TurnOf(reading, level, levels, width, height, blockSize, offset);
      WalkHalvesDimensions(reading, NextLevel(reading, level), levels, Half(width), Half(height), blockSize, offset + I32AsU32(size));
    }
  }

  /** The bytes the surfaces take up, as the `u32` offset counts them. */
  function SizeSum(s: seq<Surface>): int
    requires forall k :: 0 <= k < |s| ==> IsI32(s[k].size)
  {
    if |s| == 0 then 0 else SizeSum(s[..|s| - 1]) + I32AsU32(s[|s| - 1].size)
  }

  lemma SizeSumOfPrepended(x: Surface, s: seq<Surface>)
    requires IsI32(x.size) && forall k :: 0 <= k < |s| ==> IsI32(s[k].size)
    ensures SizeSum([x] + s) == I32AsU32(x.size) + SizeSum(s)
    decreases |s|
  {
    if |s| > 0 {
      assert ([x] + s)[..|s|] == [x] + s[..|s| - 1];
      SizeSumOfPrepended(x, s[..|s| - 1]);
    }
  }

  /** Surface k starts where the walk started plus the sizes of the surfaces before it. */
  lemma {:induction false} WalkOffsetsArePrefixSums(reading: Reading, level: int, levels: int, width: int, height: int, blockSize: int, offset: int)
    requires IsI32(width) && IsI32(height) && IsBlockSize(blockSize) && IsU32(offset)
    requires Walk(reading, level, levels, width, height, blockSize, offset).Ok?
    ensures var s := Walk(reading, level, levels, width, height, blockSize, offset).value.surfaces;
      && (forall k :: 0 <= k < |s| ==> IsI32(s[k].size))
      && (forall k :: 0 <= k < |s| ==> s[k].offset == offset + SizeSum(s[..k]))
    decreases if reading.Intended? then levels - level else 0, Positive(width) + Positive(height)
  {
    if Continues(level, levels, width, height) {
      var size, rest := TurnOf(reading, level, levels, width, height, blockSize, offset);
      var next := offset + I32AsU32(size);
      WalkOffsetsArePrefixSums(reading, NextLevel(reading, level), levels, Half(width), Half(height), blockSize, next);
      PrefixSumsOfPrepended(Surface(level, width, height, size, offset), rest.surfaces);
    }
  }

  /** Offsets that are prefix sums after a first surface stay prefix sums with it in front. */
  lemma PrefixSumsOfPrepended(x: Surface, rest: seq<Surface>)
    requires IsI32(x.size) && forall k :: 0 <= k < |rest| ==> IsI32(rest[k].size)
    requires forall k :: 0 <= k < |rest| ==> rest[k].offset == x.offset + I32AsU32(x.size) + SizeSum(rest[..k])
    ensures var s := [x] + rest;
      forall k :: 0 <= k < |s| ==> s[k].offset == x.offset + SizeSum(s[..k])
  {
    var s := [x] + rest;
    forall k | 0 <= k < |s|
      ensures s[k].offset == x.offset + SizeSum(s[..k])
    {
      if k > 0 {
        assert s[..k] == [x] + rest[..k - 1];
        SizeSumOfPrepended(x, rest[..k - 1]);
      } else {
        assert s[..k] == [];
      }
    }
  }

  /**
    With the level counter advancing, the walk stops after at most `levels - level`
    surfaces, and when it stops either the mip count is used up or neither
    dimension is still positive.
   */
  lemma {:induction false} WalkStops(level: int, levels: int, width: int, height: int, blockSize: int, offset: int)
    requires IsI32(width) && IsI32(height) && IsBlockSize(blockSize) && IsU32(offset)
    requires Walk(Intended, level, levels, width, height, blockSize, offset).Ok?
    ensures var c := Walk(Intended, level, levels, width, height, blockSize, offset).value;
      && |c.surfaces| <= Positive(levels - level)
      && (level + |c.surfaces| >= levels || (c.width <= 0 && c.height <= 0))
    decreases levels - level
  {
    if Continues(level, levels, width, height) {
      var size, rest := TurnOf(Intended, level, levels, width, height, blockSize, offset);
      WalkStops(level + 1, levels, Half(width), Half(height), blockSize, offset + I32AsU32(size));
    }
  }

  /** The largest extent `ModestTextureWalks` covers, and the largest level size it can have. */
  const ModestExtent: int := 16384
  const ModestLevelSize: int := 0x1000_0000

  function Pow2(n: nat): (r: nat)
    ensures r >= 1
  {
    if n == 0 then 1 else 2 * Pow2(n - 1)
  }

  lemma MulBounded(a: int, b: int, bound_a: int, bound_b: int)
    requires 0 <= a <= bound_a && 0 <= b <= bound_b
    ensures 0 <= a * b <= bound_a * bound_b
  {
    assert a * b <= bound_a * b;
    assert bound_a * b <= bound_a * bound_b;
  }

  /**
    A level of at most 16384 x 16384 texels has a size that fits: at most
    4096 x 4096 blocks of at most 16 bytes, 2^28 bytes.
   */
  lemma ModestLevelFits(width: int, height: int, blockSize: int)
    requires 0 <= width <= ModestExtent && 0 <= height <= ModestExtent && IsBlockSize(blockSize)
    ensures LevelSize(width, height, blockSize).Ok?
    ensures 0 <= LevelSize(width, height, blockSize).value <= ModestLevelSize
  {
    var blocks := Blocks(width) * Blocks(height);
    MulBounded(Blocks(width), Blocks(height), 4096, 4096);
    MulBounded(blocks, blockSize, 0x100_0000, 16);
  }

  /**
    A walk over dimensions below `2^n` takes at most `n` turns, so from an offset with
    room for `n` levels of the largest modest size it never overflows.
   */
  lemma {:induction false} ModestWalkFits(reading: Reading, level: int, levels: int, width: int, height: int, blockSize: int, offset: int, n: nat)
    requires 0 <= width <= ModestExtent && 0 <= height <= ModestExtent && IsBlockSize(blockSize) && IsU32(offset)
    requires width < Pow2(n) && height < Pow2(n)
    requires offset + n * ModestLevelSize < U32Limit
    ensures Walk(reading, level, levels, width, height, blockSize, offset).Ok?
    decreases n
  {
    if !Continues(level, levels, width, height) {
      WalkEmitsNothing(reading, level, levels, width, height, blockSize, offset);
    } else {
      ModestLevelFits(width, height, blockSize);
      var size := LevelSize(width, height, blockSize).value;
      assert n > 0;
      ModestWalkFits(reading, NextLevel(reading, level), levels, Half(width), Half(height), blockSize, offset + size, n - 1);
      WalkTurn(reading, level, levels, width, height, blockSize, offset, size);
    }
  }

  /**
    Whatever its mip count, a texture of at most 16384 x 16384 texels is walked from
    offset 0 without overflow: it has at most 15 levels of at most 2^28 bytes, which
    the `u32` offset holds.
   */
  lemma ModestTextureWalks(reading: Reading, levels: int, width: int, height: int, blockSize: int)
    requires 0 <= width <= ModestExtent && 0 <= height <= ModestExtent && IsBlockSize(blockSize)
    ensures Walk(reading, 0, levels, width, height, blockSize, 0).Ok?
  {
    assert Pow2(15) == 32768;
    ModestWalkFits(reading, 0, levels, width, height, blockSize, 0, 15);
  }

  /** A 64 x 64 texture with one mip level and 8-byte blocks: one surface of 16 * 16 * 8 = 2048 bytes. */
  lemma SingleLevelTexture()
    ensures Walk(Intended, 0, 1, 64, 64, 8, 0) == Ok(Chain([Surface(0, 64, 64, 2048, 0)], 32, 32))
  {
    assert LevelSize(64, 64, 8) == Ok(2048);
    WalkEmitsNothing(Intended, 1, 1, 32, 32, 8, 2048);
    WalkTurnOnto(Intended, 0, 1, 64, 64, 8, 0, 2048, Chain([], 32, 32));
    assert [Surface(0, 64, 64, 2048, 0)] + [] == [Surface(0, 64, 64, 2048, 0)];
  }

  /**
    An 8 x 8 texture with three mip levels and 8-byte blocks: levels of 8 x 8, 4 x 4
    and 2 x 2 texels take 32, 8 and 8 bytes (a level smaller than a block still takes
    a whole block).
   */
  lemma ThreeLevelTexture()
    ensures Walk(Intended, 0, 3, 8, 8, 8, 0)
      == Ok(Chain([Surface(0, 8, 8, 32, 0), Surface(1, 4, 4, 8, 32), Surface(2, 2, 2, 8, 40)], 1, 1))
  {
    assert LevelSize(8, 8, 8) == Ok(32);
    assert LevelSize(4, 4, 8) == Ok(8);
    assert LevelSize(2, 2, 8) == Ok(8);
    var s2 := [Surface(2, 2, 2, 8, 40)];
    var s1 := [Surface(1, 4, 4, 8, 32)] + s2;
    WalkEmitsNothing(Intended, 3, 3, 1, 1, 8, 48);
    WalkTurnOnto(Intended, 2, 3, 2, 2, 8, 40, 8, Chain([], 1, 1));
    assert [Surface(2, 2, 2, 8, 40)] + [] == s2;
    WalkTurnOnto(Intended, 1, 3, 4, 4, 8, 32, 8, Chain(s2, 1, 1));
    WalkTurnOnto(Intended, 0, 3, 8, 8, 8, 0, 32, Chain(s1, 1, 1));
    assert [Surface(0, 8, 8, 32, 0)] + s1 == [Surface(0, 8, 8, 32, 0), Surface(1, 4, 4, 8, 32), Surface(2, 2, 2, 8, 40)];
  }

  /**
    As written, the level never advances, so the mip count does not stop the loop:
    the 64 x 64 texture with one mip level is walked down to 1 x 1, seven surfaces,
    all uploaded as level 0.
   */
  lemma LevelNeverAdvancesAsWritten()
    ensures Walk(AsWritten, 0, 1, 64, 64, 8, 0) == Ok(Chain([
      Surface(0, 64, 64, 2048, 0), Surface(0, 32, 32, 512, 2048), Surface(0, 16, 16, 128, 2560),
      Surface(0, 8, 8, 32, 2688), Surface(0, 4, 4, 8, 2720), Surface(0, 2, 2, 8, 2728),
      Surface(0, 1, 1, 8, 2736)], 0, 0))
  {
    assert LevelSize(64, 64, 8) == Ok(2048);
    assert LevelSize(32, 32, 8) == Ok(512);
    assert LevelSize(16, 16, 8) == Ok(128);
    assert LevelSize(8, 8, 8) == Ok(32);
    assert LevelSize(4, 4, 8) == Ok(8);
    assert LevelSize(2, 2, 8) == Ok(8);
    assert LevelSize(1, 1, 8) == Ok(8);
    var s6 := [Surface(0, 1, 1, 8, 2736)];
    var s5 := [Surface(0, 2, 2, 8, 2728)] + s6;
    var s4 := [Surface(0, 4, 4, 8, 2720)] + s5;
    var s3 := [Surface(0, 8, 8, 32, 2688)] + s4;
    var s2 := [Surface(0, 16, 16, 128, 2560)] + s3;
    var s1 := [Surface(0, 32, 32, 512, 2048)] + s2;
    WalkEmitsNothing(AsWritten, 0, 1, 0, 0, 8, 2744);
    WalkTurnOnto(AsWritten, 0, 1, 1, 1, 8, 2736, 8, Chain([], 0, 0));
    assert [Surface(0, 1, 1, 8, 2736)] + [] == s6;
    WalkTurnOnto(AsWritten, 0, 1, 2, 2, 8, 2728, 8, Chain(s6, 0, 0));
    WalkTurnOnto(AsWritten, 0, 1, 4, 4, 8, 2720, 8, Chain(s5, 0, 0));
    WalkTurnOnto(AsWritten, 0, 1, 8, 8, 8, 2688, 32, Chain(s4, 0, 0));
    WalkTurnOnto(AsWritten, 0, 1, 16, 16, 8, 2560, 128, Chain(s3, 0, 0));
    WalkTurnOnto(AsWritten, 0, 1, 32, 32, 8, 2048, 512, Chain(s2, 0, 0));
    WalkTurnOnto(AsWritten, 0, 1, 64, 64, 8, 0, 2048, Chain(s1, 0, 0));
    assert [Surface(0, 64, 64, 2048, 0)] + s1 == [
      Surface(0, 64, 64, 2048, 0), Surface(0, 32, 32, 512, 2048), Surface(0, 16, 16, 128, 2560),
      Surface(0, 8, 8, 32, 2688), Surface(0, 4, 4, 8, 2720), Surface(0, 2, 2, 8, 2728),
      Surface(0, 1, 1, 8, 2736)];
  }
}
