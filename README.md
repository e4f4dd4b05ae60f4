# OBJ and DDS asset loaders, modelled in Dafny

This project models the two asset loaders of a small Rust OpenGL renderer (`src/graphics`):

- **The OBJ mesh loader.** This is `Model::new` and `Model::parse_obj`. It runs in two passes:
  - The first pass reads the text line by line. `v`, `vt` and `vn` lines fill three attribute pools: positions, texture coordinates and normals. Each `f` line adds its three `a/b/c` corner tokens to three index lists.
  - The second pass builds one `Vertex` per face corner. It looks the corner's 1-based indices up in the pools.
- **The DDS / S3TC texture loader.** This is `Texture::new` without its GL calls. It reads the 124-byte header and then the payload. It maps the FourCC to an `EXT_texture_compression_s3tc` format and chooses the block size. It then walks the mip levels: each level's block-compressed byte size and its offset into the payload become one `Surface` record, which stands in for the upload call.

Both loaders have defects that make them unusable as written. Each loader is therefore modelled under two readings (module `Readings`):

- `AsWritten` follows the code as it stands.
- `Intended` follows what the code evidently means. The loaders' methods (`ParsePools`, `Assemble`, `ParseObj`, `MipLevels`, `Load`) and the round-trip lemmas use it.

Each defect is proved as a lemma about `AsWritten`, next to the property `Intended` has instead (see "## Findings").

How each loader is modelled:

- **Specification functions and loop methods.** Each loader is a specification function over values: `ParseLines`, `Resolve` and `LoadObj` for meshes, `DecodeHeader`, `Walk` and `LoadTexture` for textures. Each source loop is also a method with a `while` loop that updates the same variables the Rust loop mutates: the line loop (`ParsePools`), the component loops `for i in 1..3` and `for i in 1..2`, which fill a fixed-size buffer (`ReadComponents`), the corner loop (`Assemble`) and the mip-level loop (`MipLevels`). `Load` runs the same mip-level loop plus the corrected reading's range check, which the source lacks. Each method is proved equal to its specification function. The component loop's function is the recursive `ReadFloats`. `ReadComponents` stands alone: the line loop reads components through `ReadVec3` and `ReadVec2`, which use `ReadFloats` directly. The three corner tokens of an `f` line are read by straight-line code in the source, and `ReadColumn` recurses over those three tokens.
- **Errors.** Every `panic!`, `expect` and `try!` becomes an error value. A Rust debug-build overflow becomes the error `ArithmeticOverflow`.
- **Floats.** `f32` parsing is a parameter (`FloatParser`). Floats are opaque bit patterns.
- **Round trip.** A canonical OBJ writer (module `ObjWriter`) writes each float with a formatter whose every output is one token. Reading a written line back appends what its components parse as, or rejects the line when one does not parse. The corrected first pass is then the writer's inverse for every pools value whose floats each read back as themselves. This holds for every float the parser can produce; it fails for a NaN payload the parser never yields. Loading such a text gives back the pools and the expected mesh.

Modules:

- `Wrappers`: `Option`, `Result`.
- `Integers`: `i32`/`u32` ranges, casts, truncating division.
- `Text`: `str::lines`, `split_whitespace`, `split('/')` and `i32::from_str`, each with its inverse.
- `Vertices`: the vertex record.
- `Readings`: the two readings.
- `ObjParser`: the first pass.
- `ObjAssembler`: the second pass.
- `ModelLoader`: the whole OBJ load.
- `ObjWriter`: the canonical writer.
- `DdsHeader`: the header, FourCC, format and block size.
- `MipChain`: the level loop.
- `TextureLoader`: the whole texture load.

## Model

| member | source | states |
|---|---|---|
| Integers.U32AsI32 | src/graphics/texture.rs:75 | `num_mip_maps as i32` keeps the 32 bits: the result is an i32, non-negative exactly when the u32 is at most `i32::MAX`, and casting back gives the u32 |
| Integers.I32AsU32 | src/graphics/texture.rs:82 | `size as u32` is the identity on non-negative sizes and adds 2^32 to negative ones |
| Integers.TruncDiv | src/graphics/texture.rs:83-84 | Rust's signed `/` equals Dafny's division on non-negative operands and rounds toward zero on negative ones |
| Text.Lines | src/graphics/model.rs:43 | `str::lines` yields lines with no `\n` in them |
| Text.LinesOfWrittenLines | src/graphics/model.rs:43 | `Lines` gives back every list of lines written with `\n` after each, when no line holds `\n` or ends in `\r` |
| Text.SplitWhitespace | src/graphics/model.rs:45 | every token `split_whitespace` yields is non-empty and holds no Unicode whitespace |
| Text.SplitJoinedWords | src/graphics/model.rs:45 | splitting words joined by single spaces gives those words back |
| Text.SplitOn | src/graphics/model.rs:94-96 | `split('/')` yields at least one piece and no piece holds the separator |
| Text.JoinSplitPieces | src/graphics/model.rs:94-96 | joining the pieces of `split` with the separator rebuilds the string |
| Text.SplitJoinedPieces | src/graphics/model.rs:94-96 | splitting pieces joined by a separator they do not contain gives those pieces back |
| Text.ParseI32 | src/graphics/model.rs:98-108 | `parse::<i32>` succeeds only with a value in i32 range and fails on any token with no digit |
| Text.ParseFormattedI32 | src/graphics/model.rs:98-108 | every i32 written in decimal parses back to itself |
| ObjParser.KindOf | src/graphics/model.rs:47-49 | a line with no tokens is blank, and `v`, `vt`, `vn` and `f` as its first token select exactly their own kind |
| ObjParser.ReadFloats | src/graphics/model.rs:52-59 | the component loop succeeds exactly when each component token is present and parses; the values are those tokens' floats, in order; a missing token gives `MissingToken`, and an unparsable one gives the line's own error |
| ObjParser.ReadComponents | src/graphics/model.rs:50-59 | the loop over a zero-filled buffer fails exactly when `ReadFloats` does, with its error; otherwise slot i holds component i read, and slots the loop never reached stay `0.0` |
| ObjParser.ReadFloatsErrorPersists | src/graphics/model.rs:52-56 | once reading the first k components fails, reading more of them fails with the same error |
| ObjParser.ReadColumn | src/graphics/model.rs:94-108 | one component of the three corners succeeds exactly when all three are present i32s, and it yields them first corner first |
| ObjParser.ReadFace | src/graphics/model.rs:93-108 | an `f` line reads exactly when it has three corner tokens whose components 0, 1 and 2 are all i32s; component 0 of corner c goes to the positions, 1 to the uvs, 2 to the normals |
| ObjParser.ParseLine | src/graphics/model.rs:45-111 | a rejected line's error is `Malformed` with its own line number; an accepted line only appends to the three pools. What it appends is stated by `CoordinateLineStep` and `FaceLineStep` |
| ObjParser.ParseLines | src/graphics/model.rs:43-113 | after the first pass the three index lists have equal length |
| ObjParser.ParsePools | src/graphics/model.rs:33-113 | the line loop pushing onto six sequences returns exactly the corrected first pass, error included |
| ObjParser.CoordinateLineStep | src/graphics/model.rs:49-91 | a `v`, `vt` or `vn` line appends exactly one entry to its own pool and none to the other two; any other line appends to no pool |
| ObjParser.PositionsFollowFileOrder | src/graphics/model.rs:49-61 | there is one position per `v` line, and position k is what the k-th `v` line holds |
| ObjParser.UvsFollowFileOrder | src/graphics/model.rs:63-76 | there is one texture coordinate per `vt` line, and entry k is what the k-th `vt` line holds |
| ObjParser.NormalsFollowFileOrder | src/graphics/model.rs:78-91 | there is one normal per `vn` line, and normal k is what the k-th `vn` line holds |
| ObjParser.FaceLineStep | src/graphics/model.rs:93-108 | an `f` line appends its face's three corners to each index list; any other line leaves the index lists unchanged |
| ObjParser.FacesFollowFileOrder | src/graphics/model.rs:93-110 | each index list has 3 entries per `f` line, and entries 3k..3k+2 are the corners of the k-th `f` line |
| ObjParser.UnknownKeywordKeepsPools | src/graphics/model.rs:111 | a line with an unknown keyword leaves every pool and index list unchanged |
| ObjParser.RejectionIgnoresPools | src/graphics/model.rs:45-111 | whether a line is rejected, and why, does not depend on the lines before it; the error carries its line number |
| ObjParser.FirstErrorIsFinal | src/graphics/model.rs:43-113 | once a prefix of the text is rejected, the whole text is rejected with that same error |
| ObjParser.RejectedLineRejectsFile | src/graphics/model.rs:53-56 | one rejected line anywhere rejects the whole file, so no partial model is returned |
| ObjParser.UnreadableCoordinateRejectsLine | src/graphics/model.rs:53-56 | a `v`, `vt` or `vn` component that does not parse as a float rejects its line with that keyword's error |
| ObjParser.UnreadableIndexRejectsLine | src/graphics/model.rs:98-108 | an `f` line with a missing or non-i32 component rejects its line |
| ObjParser.PositionLineComponents | src/graphics/model.rs:50-60 | `v x y z` appends (x, y, z) when corrected and (x, y, 0.0) as written |
| ObjParser.UvLineComponents | src/graphics/model.rs:64-75 | `vt u v` appends (u, v) when corrected and (u, 0.0) as written |
| ObjParser.NormalLineComponents | src/graphics/model.rs:79-90 | `vn x y z` appends (x, y, z) when corrected and (x, y, 0.0) as written |
| ObjAssembler.CornerIndices | src/graphics/model.rs:116-123 | when corrected, corner c looks up its own entries of the three index lists; as written, the loop counter stands in for all three indices and fails with the counter underflow exactly at corner 0 |
| ObjAssembler.Lookup | src/graphics/model.rs:120-123 | a 1-based index succeeds exactly when it is between 1 and the pool's size; the result is entry `index - 1`, otherwise `IndexOutOfRange` naming the pool, the corner and the index |
| ObjAssembler.ResolveCorner | src/graphics/model.rs:116-126 | when corrected, a corner resolves exactly when all three indices are in their pools, to entries `idx - 1`; as written, corner 0 underflows |
| ObjAssembler.Resolve | src/graphics/model.rs:115-128 | the second pass succeeds exactly when every corner resolves; the result has one vertex per corner in corner order, each that corner's vertex |
| ObjAssembler.Assemble | src/graphics/model.rs:115-128 | the vertex loop returns exactly the corrected second pass, error included |
| ObjAssembler.FirstErrorIsFinal | src/graphics/model.rs:115-128 | once the first k corners fail, every longer run fails with the same error |
| ObjAssembler.FirstBadCornerIsReported | src/graphics/model.rs:115-128 | the error reported is that of the first corner that cannot be resolved |
| ObjAssembler.AssemblyResolvesEveryCorner | src/graphics/model.rs:120-125 | assembly succeeds exactly when every index of every corner is in its pool; vertex c is then built from entries `idx - 1` |
| ObjAssembler.BadIndexRejectsMesh | src/graphics/model.rs:121-123 | an index of 0, a negative index or one past its pool fails assembly with `IndexOutOfRange`, never an out-of-bounds read |
| ObjAssembler.CounterLookupRejectsEveryFace | src/graphics/model.rs:115-123 | as written, any pools with a corner fail at corner 0 with the counter underflow |
| ModelLoader.LoadObj | src/graphics/model.rs:31-134 | a loaded model has 3 vertices per `f` line and texture id 1 |
| ModelLoader.ParseObj | src/graphics/model.rs:31-134 | the two loops return exactly the corrected load, error included |
| ModelLoader.MeshCornerOfFace | src/graphics/model.rs:93-128 | vertex 3k+j of the mesh is corner j of the k-th `f` line: its indices are in range, and the vertex is the entries `idx - 1` they name |
| ModelLoader.ResolvedCornerOfFace | src/graphics/model.rs:115-126 | in a resolved mesh, vertex 3k+j is built from the in-range indices of corner j of face k |
| ModelLoader.VerticesFollowFaceCorners | src/graphics/model.rs:115-128 | a loaded model's vertex 3k+j is built from corner j of the file's k-th `f` line |
| ModelLoader.DanglingIndexRejectsModel | src/graphics/model.rs:120-123 | a face index outside its pool fails the whole load with `IndexOutOfRange` |
| ModelLoader.DanglingCornerRejectsMesh | src/graphics/model.rs:120-123 | a face corner with an index outside its pool fails the second pass with `IndexOutOfRange` |
| ModelLoader.LoadReportsAssemblyError | src/graphics/model.rs:115-128 | when the second pass fails, the load fails with the second pass's error |
| ModelLoader.NewModel | src/graphics/model.rs:16-29 | a file that cannot be opened or read is `Unreadable` under both readings; when corrected, `Model::new` loads the file's contents, whatever the path; as written, it loads the path |
| ModelLoader.PathIsParsedAsWritten | src/graphics/model.rs:28 | as written, a one-word path such as `cube.obj` loads as the empty mesh, whatever the file holds |
| ModelLoader.BlankLineRejectsModelAsWritten | src/graphics/model.rs:45-47 | as written, one blank line anywhere fails the load |
| ModelLoader.BlankLineIsSkipped | src/graphics/model.rs:47 | when corrected, a blank line changes nothing |
| ModelLoader.FacesRejectModelAsWritten | src/graphics/model.rs:115-123 | as written, every text with an `f` line that passes the first pass fails with the counter underflow at corner 0 |
| ObjWriter.PositionTextReads | src/graphics/model.rs:49-61 | a written `v` line appends what its three components parse as, which is exactly its vector when each reads back; when one does not parse, the line is rejected with the vertex error |
| ObjWriter.UvTextReads | src/graphics/model.rs:63-76 | a written `vt` line appends what its two components parse as, which is exactly its vector when each reads back; when one does not parse, the line is rejected with the uv error |
| ObjWriter.NormalTextReads | src/graphics/model.rs:78-91 | a written `vn` line appends what its three components parse as, which is exactly its vector when each reads back; when one does not parse, the line is rejected with the normal error |
| ObjWriter.CornerTextReads | src/graphics/model.rs:94-108 | a written `a/b/c` token splits and parses back to its three i32 indices |
| ObjWriter.ReadFaceOfTokens | src/graphics/model.rs:94-108 | four tokens whose corner tokens hold a face's indices read as that face |
| ObjWriter.FaceLineReads | src/graphics/model.rs:93-110 | a line whose tokens read as a face appends that face's corners to the three index lists |
| ObjWriter.FaceTextTokensRead | src/graphics/model.rs:93-108 | a written `f` line has four tokens, `f` first, and reads back as its face |
| ObjWriter.FaceTextReads | src/graphics/model.rs:93-110 | a written `f` line appends exactly its face's corners to the index lists |
| ObjWriter.LastLineRead | src/graphics/model.rs:43-113 | the first pass over one more line continues from the pools of the lines before it |
| ObjWriter.BlockRead | src/graphics/model.rs:43-113 | a block of lines that moves the pools through given states, one line at a time, ends in the last of those states |
| ObjWriter.PositionLinesRead | src/graphics/model.rs:49-61 | reading back written `v` lines whose floats read back appends exactly their vectors to the positions, in order |
| ObjWriter.UvLinesRead | src/graphics/model.rs:63-76 | reading back written `vt` lines whose floats read back appends exactly their vectors to the texture coordinates, in order |
| ObjWriter.NormalLinesRead | src/graphics/model.rs:78-91 | reading back written `vn` lines whose floats read back appends exactly their vectors to the normals, in order |
| ObjWriter.FaceLinesRead | src/graphics/model.rs:93-110 | reading back written `f` lines appends the whole index lists, entry for entry |
| ObjWriter.ObjLinesReadBack | src/graphics/model.rs:43-113 | the corrected first pass reads the writer's lines back as the pools written, whenever each float in the pools reads back |
| ObjWriter.WrittenPoolsReadBack | src/graphics/model.rs:43-113 | the corrected first pass reads the writer's text (split by `str::lines`) back as exactly the pools written, whenever each float in the pools reads back |
| ObjWriter.WrittenModelLoads | src/graphics/model.rs:31-134 | loading written pools whose floats read back and whose indices are all in range gives one vertex per corner, built from the entries `idx - 1` the corner names |
| ObjWriter.WrittenTriangleLoads | src/graphics/model.rs:31-134 | a written triangle with 3 positions, 2 uvs and 1 normal, whose floats read back, loads as exactly the three expected vertices, texture id 1 |
| DdsHeader.DecodeHeader | src/graphics/texture.rs:29-45 | the header fails exactly when the file is shorter than 124 bytes, with `TruncatedHeader`; a decoded header's fields are in the ranges of their Rust types |
| DdsHeader.U32At | src/graphics/texture.rs:38-45 | the little-endian word at an offset is a u32 whose low byte is the byte at the offset and whose high byte is the byte 3 after it |
| DdsHeader.EncodeDecodedU32 | src/graphics/texture.rs:38-45 | encoding the word read at an offset gives back the four bytes there |
| DdsHeader.FieldsAreWordsAtOffsets | src/graphics/texture.rs:38-45 | for every file of at least a header's length, the corrected decoder's height, width, linear size, mip count and FourCC are exactly the little-endian words at offsets 8, 12, 16, 24 and 80 |
| DdsHeader.DecodeEncodedU32 | src/graphics/texture.rs:38-45 | the little-endian encoding of a u32 decodes back to it |
| DdsHeader.DecodeEncodedHeader | src/graphics/texture.rs:38-45 | when corrected, height, width, linear size, mip count and FourCC are read back from offsets 8, 12, 16, 24 and 80, whatever follows the header |
| DdsHeader.DecodeKeepsLowBytesAsWritten | src/graphics/texture.rs:38-45 | as written, each field decodes to the low byte of what was written |
| DdsHeader.FourCcConstantsSpellTheirTags | src/graphics/texture.rs:10-12 | the FourCC constants are `DXT1`, `DXT3` and `DXT5` packed little-endian |
| DdsHeader.FormatOf | src/graphics/texture.rs:51-56 | DXT3 maps to 0x83F2 and DXT5 to 0x83F3, each exactly; every other code, DXT1 included, maps to 0x83F1; 0x83F0 is never chosen |
| DdsHeader.BlockSize | src/graphics/texture.rs:65 | the block size is 8 exactly for format 0x83F1, and 16 otherwise |
| DdsHeader.BlockSizeOfFourCc | src/graphics/texture.rs:51-65 | the block size is 16 exactly for DXT3 and DXT5, and 8 for every other FourCC |
| DdsHeader.FormatIsAlwaysDxt1AsWritten | src/graphics/texture.rs:40-56 | as written, every file is taken as RGBA DXT1 with 8-byte blocks |
| MipChain.Blocks | src/graphics/texture.rs:76 | `(extent + 3) / 4` is the least number of 4-texel blocks that cover a non-negative extent |
| MipChain.LevelSize | src/graphics/texture.rs:76 | a level's size succeeds exactly when `w + 3` and `h + 3` stay in i32 and `((w+3)/4) * ((h+3)/4) * block_size` fits in i32, and is then that product; otherwise it is the error `ArithmeticOverflow` |
| MipChain.Half | src/graphics/texture.rs:83-84 | `x /= 2` is `x / 2` on a non-negative dimension and rounds toward zero on a negative one; it moves a positive dimension strictly toward 0 and stays in i32 |
| MipChain.Walk | src/graphics/texture.rs:66-85 | the level loop ends with i32 dimensions, and its only error is `ArithmeticOverflow` |
| MipChain.MipLevels | src/graphics/texture.rs:66-85 | the `while` loop updating `offset`, `width`, `height` and `level` returns exactly the corrected walk from level 0 and offset 0 |
| MipChain.WalkTurn | src/graphics/texture.rs:75-85 | one turn of the loop emits the current level's surface, then continues with the halved dimensions and the advanced offset |
| MipChain.WalkEmitsNothing | src/graphics/texture.rs:75 | the loop emits nothing when the mip count is used up or neither dimension is positive |
| MipChain.WalkNumbersLevels | src/graphics/texture.rs:68-78 | surface k is at level `level + k` when corrected, and always at the starting level as written |
| MipChain.WalkSizesLevels | src/graphics/texture.rs:75-76 | every surface has a level below the mip count and a positive dimension, and its size is its block-compressed size |
| MipChain.WalkHalvesDimensions | src/graphics/texture.rs:83-84 | the first surface has the starting dimensions, each later surface half its predecessor's, and the loop ends with half the last surface's |
| MipChain.WalkOffsetsArePrefixSums | src/graphics/texture.rs:66-82 | surface k's offset is the starting offset plus the sizes of all earlier surfaces |
| MipChain.SizeSumOfPrepended | src/graphics/texture.rs:82 | the bytes of a surface followed by others are its size plus theirs |
| MipChain.PrefixSumsOfPrepended | src/graphics/texture.rs:82 | offsets that are prefix sums after a first surface stay prefix sums with that surface in front |
| MipChain.WalkStops | src/graphics/texture.rs:75 | with the level advancing, the loop emits at most `levels - level` surfaces; when it stops, either the mip count is used up or neither dimension is positive |
| MipChain.ModestLevelFits | src/graphics/texture.rs:76 | a level of at most 16384 x 16384 texels has a size that fits: at most 2^28 bytes |
| MipChain.ModestWalkFits | src/graphics/texture.rs:75-85 | a walk over dimensions below 2^n, from an offset with room for n levels of 2^28 bytes, never overflows |
| MipChain.ModestTextureWalks | src/graphics/texture.rs:66-85 | under both readings, whatever the mip count, a texture of at most 16384 x 16384 texels is walked from offset 0 without overflow |
| MipChain.SingleLevelTexture | src/graphics/texture.rs:66-85 | a 64 x 64 DXT1 texture with one mip level is one 2048-byte surface at offset 0, and the loop ends at 32 x 32 |
| MipChain.ThreeLevelTexture | src/graphics/texture.rs:66-85 | an 8 x 8 DXT1 texture with three levels gives surfaces of 32, 8 and 8 bytes at offsets 0, 32 and 40 |
| MipChain.LevelNeverAdvancesAsWritten | src/graphics/texture.rs:68-85 | as written, the 64 x 64 one-level texture is walked down to 1 x 1: seven surfaces, all at level 0 |
| TextureLoader.PayloadSize | src/graphics/texture.rs:47 | the payload is `linear_size` for a mip count of at most 1 and `2 * linear_size` otherwise; it fails exactly when that doubling overflows u32 |
| TextureLoader.FirstOutside | src/graphics/texture.rs:77-80 | this is the first surface whose bytes are not inside the payload: every earlier one is inside |
| TextureLoader.LoadTexture | src/graphics/texture.rs:27-92 | a file shorter than the header fails exactly with `TruncatedHeader`; a loaded payload is the bytes right after the header; the format is never 0x83F0; when corrected, every surface's bytes lie inside the payload |
| TextureLoader.NewTexture | src/graphics/texture.rs:27-28 | a file that cannot be opened is `Unreadable`; otherwise the load is that of the file's bytes |
| TextureLoader.Load | src/graphics/texture.rs:27-92 | the header read, payload read, level loop and range check return exactly the corrected load |
| TextureLoader.ShortPayloadIsError | src/graphics/texture.rs:47-49 | a file with fewer bytes after the header than the payload size fails with `TruncatedPayload` |
| TextureLoader.LoadFromParts | src/graphics/texture.rs:27-92 | a complete header, payload and walk whose surfaces fit give the texture of those parts |
| TextureLoader.PartsOfLoad | src/graphics/texture.rs:47-85 | a loaded texture's payload size, format and surfaces are those of its header |
| TextureLoader.ChainIsContiguous | src/graphics/texture.rs:66-82 | the levels lie end to end: the first at offset 0, each next one where its predecessor ends |
| TextureLoader.ChainShape | src/graphics/texture.rs:66-85 | a corrected walk numbers levels from 0, sizes each by its blocks and halves each, and emits at most the mip count of them |
| TextureLoader.LoadedSurfacesFormTheMipChain | src/graphics/texture.rs:27-92 | a loaded texture's surfaces are its header's mip chain: levels from 0, block-sized, halving, end to end from offset 0, no more than the mip count; the returned width and height are half the last level's |
| TextureLoader.ModestTextureLoadsUnlessOutside | src/graphics/texture.rs:27-92 | when corrected, a file whose header announces at most 16384 x 16384 texels and whose payload is all there either loads or fails because a level lies outside the payload; no size or offset overflows |
| TextureLoader.DxtOneTextureLoads | src/graphics/texture.rs:27-92 | a 64 x 64 DXT1 file with one mip level and a 2048-byte payload loads as one 2048-byte level covering the payload |
| TextureLoader.DxtOneTextureReadsPastPayloadAsWritten | src/graphics/texture.rs:38-85 | as written, that file reads an empty payload yet uploads seven level-0 surfaces, the first 2048 bytes long from offset 0 |

## Left out

- GL calls (`GenTextures`, `BindTexture`, `CompressedTexImage2D`) and the GL texture name: they are foreign calls. An upload is modelled as a `Surface` record; the returned `Texture` carries the surfaces and the payload instead of a texture id.
- File I/O: `File::open`, `read_to_string` and `read_exact` are replaced by an `Option` parameter holding the file's contents. An open or read failure, including invalid UTF-8, is the single error `Unreadable`. The end of the file hit while reading the header or the payload is `TruncatedHeader` or `TruncatedPayload`. Other `io::Error` kinds are not distinguished.
- `f32` parsing and float values: `str::parse::<f32>` is the parameter `FloatParser`. A float is its opaque bit pattern, and `0.0` is the bit pattern 0.
- The `println!` for unknown keywords: it is output only, and the model keeps the pools unchanged.
- Panics are modelled as error results: a panic ends the program, while the model returns the error.
- Overflow follows Rust's debug build, where an overflow is an error. A release build would wrap instead, and that wrap is not modelled.
- Negative (relative) OBJ indices: the OBJ format lets `-1` name the last entry read so far. The corrected lookup, like the source's comment, only subtracts 1, so such an index is out of range.
- DdsHeader.DecodeHeader: reads the fields at offsets 8, 12, 16, 24 and 80 from the start of the file, as the code does. A DDS file begins with the 4-byte magic `DDS `, so in a real file each field sits 4 bytes later. The model does not correct this offset.
- TextureLoader.LoadTexture: returns the width and height the level loop ends with, as the code does, not the header's dimensions. Those are the dimensions of surface 0.
- MipChain.Walk: follows the code's loop condition `level < num_mip_maps && (width > 0 || height > 0)`. The loop stops as soon as the mip count is used up or neither dimension is positive, whichever comes first. Block sizes follow the code's formula too. For an 8 x 8 texture with 8-byte blocks, the levels take 32, 8 and 8 bytes: the 8 x 8 level is four blocks, and a level smaller than a block still takes one whole block (`MipChain.ThreeLevelTexture`).
- ObjParser.ReadFloats, ObjParser.ReadFace: tokens after the last component a line needs are ignored, as the code does. When corrected, `v 1 2 3 4` loads the position (1, 2, 3). The quad `f 1/1/1 2/2/2 3/3/3 4/4/4` keeps its first three corners and drops the fourth. Neither reading rejects a line with too many tokens. A line with too few tokens is rejected with `MissingToken`, where the code panics on the index.
- ObjWriter.WrittenPoolsReadBack, ObjWriter.ObjLinesReadBack, ObjWriter.WrittenModelLoads: the round trip is promised only for pools whose floats each read back through the parser as themselves. Rust writes every NaN as `NaN`, and the parser reads that back as one fixed bit pattern, so a NaN with any other payload does not come back. The per-line lemmas (`PositionTextReads` and its two siblings) state what such a line appends instead.
- `texture_id: 1` of the OBJ loader is the constant `DefaultTextureId`. The texture is not loaded from the model.

## Findings

| source | as written | input that shows it | evidently intended | confidence | as-written member | corrected member |
|---|---|---|---|---|---|---|
| src/graphics/model.rs:121-123 | the pools are indexed by the loop counter `i - 1`, which underflows at `i = 0`; the face's indices are never used | any text with an `f` line, such as `v 0 0 0` / `vt 0 0` / `vn 0 0 1` / `f 1/1/1 1/1/1 1/1/1` | entry `idx - 1` of each pool for the corner's index, as the comment at line 120 says, with a range check | high; not executed | ObjAssembler.CounterLookupRejectsEveryFace | ObjAssembler.AssemblyResolvesEveryCorner |
| src/graphics/model.rs:52 | `for i in 1..3` reads components 1 and 2 of a `v` line, so z stays 0.0 | `v 1 2 3` gives the position (1, 2, 0) | all three components are read | high; not executed | ObjParser.PositionLineComponents | ObjWriter.PositionTextReads |
| src/graphics/model.rs:66 | `for i in 1..2` reads only component 1 of a `vt` line, so v stays 0.0 | `vt 0.5 0.25` gives the coordinate (0.5, 0) | both components are read | high; not executed | ObjParser.UvLineComponents | ObjWriter.UvTextReads |
| src/graphics/model.rs:81 | `for i in 1..3` reads components 1 and 2 of a `vn` line, so z stays 0.0 | `vn 0 0 1` gives the normal (0, 0, 0) | all three components are read | high; not executed | ObjParser.NormalLineComponents | ObjWriter.NormalTextReads |
| src/graphics/model.rs:47 | `line_data[0]` panics on a line with no tokens | a text with an empty line between two `v` lines | a blank line is skipped | high; not executed | ModelLoader.BlankLineRejectsModelAsWritten | ModelLoader.BlankLineIsSkipped |
| src/graphics/model.rs:28 | `parse_obj(path)` parses the path, not the text just read | the path `cube.obj` loads as the empty mesh, whatever the file holds | `parse_obj(&data)` | high; not executed | ModelLoader.PathIsParsedAsWritten | ModelLoader.NewModel |
| src/graphics/texture.rs:40-44 | `*ptr.offset(k)` on a `*const u8` reads one byte per field | a 256 x 256 texture's header reads as 0 x 0 | each field is the little-endian 32-bit word at its offset | high; not executed | DdsHeader.DecodeKeepsLowBytesAsWritten | DdsHeader.DecodeEncodedHeader |
| src/graphics/texture.rs:44 | the one-byte FourCC never equals `FOURCC_DXT3` or `FOURCC_DXT5`, so every file is taken as DXT1 | a `DXT5` file is uploaded as RGBA DXT1 with 8-byte blocks | DXT3 and DXT5 select their formats and 16-byte blocks | high; not executed | DdsHeader.FormatIsAlwaysDxt1AsWritten | DdsHeader.BlockSizeOfFourCc |
| src/graphics/texture.rs:68 | `level` is never incremented, so the mip count never stops the loop, and every level is uploaded as level 0 | a 64 x 64 texture with one mip level uploads seven surfaces, all level 0 | the level advances each turn, and the loop stops after the mip count | high; not executed | MipChain.LevelNeverAdvancesAsWritten | MipChain.WalkStops |
| src/graphics/texture.rs:76-79 | no level's byte range is checked against `data`, so the upload reads wherever the offset points | the 64 x 64 DXT1 file above, as written, uploads 2048 bytes from an empty payload | a level outside the payload fails the load before any upload | medium; not executed | TextureLoader.DxtOneTextureReadsPastPayloadAsWritten | TextureLoader.LoadTexture |
