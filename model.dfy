/**
  `Model::new` and `Model::parse_obj`: the OBJ text is split into lines, the first
  pass fills the pools, the second builds one vertex per face corner.
 */
module ModelLoader {
  import opened Wrappers
  import opened Text
  import opened Vertices
  import opened Readings
  import opened ObjParser
  import opened ObjAssembler

  /** The texture every loaded model is bound to; the loader never reads it from the file. */
  const DefaultTextureId: int := 1

  /** A loaded mesh: a triangle list, one vertex per face corner. */
  datatype Model = Model(vertices: seq<Vertex>, textureId: int)

  /** The number of `f` lines in an OBJ text. */
  function FaceCount(data: string): nat {
    |LinesOfKind(Lines(data), FaceLine)|
  }

  /**
    `parse_obj` as a function of the text: both passes, the first error stopping the
    load. A loaded model has exactly three vertices per `f` line.
   */
  function LoadObj(reading: Reading, data: string, parse: FloatParser): (r: Result<Model, ObjError>)
    ensures r.Ok? ==> |r.value.vertices| == 3 * FaceCount(data)
    ensures r.Ok? ==> r.value.textureId == DefaultTextureId
  {
    match ParseLines(reading, Lines(data), parse)
    case Err(e) => Err(e)
    case Ok(pools) =>
      FacesFollowFileOrder(reading, Lines(data), parse, pools);
      match Resolve(reading, pools, Corners(pools))
      case Err(e) => Err(e)
      case Ok(vertices) => Ok(Model(vertices, DefaultTextureId))
  }

  /** `parse_obj` with the corrected readings: the two loops, then the model. */
  method ParseObj(data: string, parse: FloatParser) returns (r: Result<Model, ObjError>)
    ensures r == LoadObj(Intended, data, parse)
  {
    var pools := ParsePools(Lines(data), parse);
    if pools.Err? {
      return Err(pools.error);
    }
    var vertices := Assemble(pools.value);
    if vertices.Err? {
      return Err(vertices.error);
    }
    r := Ok(Model(vertices.value, DefaultTextureId));
  }

  /**
    `Model::new`. The file system is a parameter: `file` is the file's contents, or
    `None` when it cannot be opened or read. As written, the text parsed is the path
    itself; corrected, it is the contents.
   */
  function NewModel(reading: Reading, path: string, file: Option<string>, parse: FloatParser): (r: Result<Model, ObjError>)
    ensures file.None? ==> r == Err(Unreadable)
    ensures file.Some? && reading.Intended? ==> r == LoadObj(Intended, file.value, parse)
    ensures file.Some? && reading.AsWritten? ==> r == LoadObj(AsWritten, path, parse)
  {
    match file
    case None => Err(Unreadable)
    case Some(contents) => LoadObj(reading, if reading.AsWritten? then path else contents, parse)
  }

  // ---------------------------------------------------------------------------
  // Properties of the whole load

  /**
    Vertex `3k + j` of the mesh built from the pools is corner `j` of the k-th `f`
    line: entries `idx - 1` of the pools for the indices that corner's `a/b/c` token
    holds.
   */
  lemma MeshCornerOfFace(lines: seq<string>, parse: FloatParser, pools: Pools, vertices: seq<Vertex>, k: nat, j: nat)
    requires ParseLines(Intended, lines, parse) == Ok(pools)
    requires Resolve(Intended, pools, Corners(pools)) == Ok(vertices)
    requires k < |LinesOfKind(lines, FaceLine)| && j < 3
    ensures 3 * k + 3 <= |pools.positionIndices|
    ensures ReadFace(SplitWhitespace(LinesOfKind(lines, FaceLine)[k])) == Ok(FaceAt(pools, k))
    ensures
      var face := FaceAt(pools, k);
      && InPool(face.positions[j], |pools.positions|)
      && InPool(face.uvs[j], |pools.uvs|)
      && InPool(face.normals[j], |pools.normals|)
      && vertices[3 * k + j]
         == Vertex(pools.positions[face.positions[j] - 1], pools.uvs[face.uvs[j] - 1], pools.normals[face.normals[j] - 1])
  {
    FacesFollowFileOrder(Intended, lines, parse, pools);
    ResolvedCornerOfFace(pools, vertices, k, j);
  }

  /** Vertex `3k + j` of a resolved mesh is built from the indices of corner `j` of face `k`. */
  lemma ResolvedCornerOfFace(pools: Pools, vertices: seq<Vertex>, k: nat, j: nat)
    requires Balanced(pools) && 3 * k + 3 <= |pools.positionIndices| && j < 3
    requires Resolve(Intended, pools, Corners(pools)) == Ok(vertices)
    ensures
      var face := FaceAt(pools, k);
      && InPool(face.positions[j], |pools.positions|)
      && InPool(face.uvs[j], |pools.uvs|)
      && InPool(face.normals[j], |pools.normals|)
      && vertices[3 * k + j]
         == Vertex(pools.positions[face.positions[j] - 1], pools.uvs[face.uvs[j] - 1], pools.normals[face.normals[j] - 1])
  {
    FaceAtCorner(pools, k, j);
    AssemblyResolvesEveryCorner(pools);
    assert CornerInPools(pools, 3 * k + j) && vertices[3 * k + j] == CornerVertex(pools, 3 * k + j);
  }

  /**
    A loaded model's vertices are the face corners of its text, in order: vertex
    `3k + j` is built from corner `j` of the k-th `f` line, as `MeshCornerOfFace` states.
   */
  lemma VerticesFollowFaceCorners(data: string, parse: FloatParser, pools: Pools, m: Model, k: nat, j: nat)
    requires ParseLines(Intended, Lines(data), parse) == Ok(pools)
    requires LoadObj(Intended, data, parse) == Ok(m)
    requires k < FaceCount(data) && j < 3
    ensures 3 * k + 3 <= |pools.positionIndices|
    ensures ReadFace(SplitWhitespace(LinesOfKind(Lines(data), FaceLine)[k])) == Ok(FaceAt(pools, k))
    ensures
      var face := FaceAt(pools, k);
      && InPool(face.positions[j], |pools.positions|)
      && InPool(face.uvs[j], |pools.uvs|)
      && InPool(face.normals[j], |pools.normals|)
      && m.vertices[3 * k + j]
         == Vertex(pools.positions[face.positions[j] - 1], pools.uvs[face.uvs[j] - 1], pools.normals[face.normals[j] - 1])
  {
    assert Resolve(Intended, pools, Corners(pools)) == Ok(m.vertices);
    MeshCornerOfFace(Lines(data), parse, pools, m.vertices, k, j);
  }

  /** A face index outside its pool fails the whole load; no partial model is returned. */
  lemma DanglingIndexRejectsModel(data: string, parse: FloatParser, pools: Pools, k: nat, j: nat)
    requires ParseLines(Intended, Lines(data), parse) == Ok(pools)
    requires 3 * k + 3 <= |pools.positionIndices| && j < 3
    requires
      var face := FaceAt(pools, k);
      !InPool(face.positions[j], |pools.positions|) || !InPool(face.uvs[j], |pools.uvs|) || !InPool(face.normals[j], |pools.normals|)
    ensures LoadObj(Intended, data, parse).Err?
    ensures LoadObj(Intended, data, parse).error.IndexOutOfRange?
  {
    DanglingCornerRejectsMesh(pools, k, j);
    LoadReportsAssemblyError(Intended, data, parse, pools);
  }

  /** A face corner whose index is outside its pool fails the second pass. */
  lemma DanglingCornerRejectsMesh(pools: Pools, k: nat, j: nat)
    requires Balanced(pools) && 3 * k + 3 <= |pools.positionIndices| && j < 3
    requires
      var face := FaceAt(pools, k);
      !InPool(face.positions[j], |pools.positions|) || !InPool(face.uvs[j], |pools.uvs|) || !InPool(face.normals[j], |pools.normals|)
    ensures Resolve(Intended, pools, Corners(pools)).Err?
    ensures Resolve(Intended, pools, Corners(pools)).error.IndexOutOfRange?
  {
    FaceAtCorner(pools, k, j);
    BadIndexRejectsMesh(pools, 3 * k + j);
  }

  /** When the second pass fails, the load fails with its error. */
  lemma LoadReportsAssemblyError(reading: Reading, data: string, parse: FloatParser, pools: Pools)
    requires ParseLines(reading, Lines(data), parse) == Ok(pools)
    requires Resolve(reading, pools, Corners(pools)).Err?
    ensures LoadObj(reading, data, parse) == Err(Resolve(reading, pools, Corners(pools)).error)
  {
  }

  /** A text with no line ending is its own single line. */
  lemma LinesOfOneLine(s: string)
    requires |s| > 0 && '\n' !in s
    ensures Lines(s) == [s]
  {
    assert IndexOf(s, '\n') == |s|;
  }

  /**
    As written, `Model::new` parses its path. A path such as `cube.obj`, one word that
    is no OBJ keyword, reads as a single line of an unknown kind, so every model loads
    as the empty mesh, whatever the file holds.
   */
  lemma PathIsParsedAsWritten(path: string, contents: string, parse: FloatParser)
    requires IsWord(path) && '\n' !in path
    requires path != "v" && path != "vt" && path != "vn" && path != "f"
    ensures NewModel(AsWritten, path, Some(contents), parse) == Ok(Model([], DefaultTextureId))
  {
    LinesOfOneLine(path);
    SplitJoinedWords([path]);
    assert JoinWords([path]) == path;
    assert LineKindOf(path) == OtherLine;
    assert [path][..0] == [];
    assert ParseLines(AsWritten, [path], parse) == Ok(NoPools);
  }

  /** As written, one blank line anywhere in the text fails the load. */
  lemma BlankLineRejectsModelAsWritten(data: string, parse: FloatParser, i: nat)
    requires i < |Lines(data)| && SplitWhitespace(Lines(data)[i]) == []
    ensures LoadObj(AsWritten, data, parse).Err?
  {
    RejectedLineRejectsFile(AsWritten, Lines(data), parse, i);
  }

  /** Corrected, a blank line is skipped like a line of unknown kind. */
  lemma BlankLineIsSkipped(p: Pools, line: string, lineNumber: nat, parse: FloatParser)
    requires SplitWhitespace(line) == []
    ensures ParseLine(Intended, p, line, lineNumber, parse) == Ok(p)
  {
    UnknownKeywordKeepsPools(Intended, p, line, lineNumber, parse);
  }

  /**
    As written, once the first pass succeeds, any text with an `f` line fails in the
    second: the counter lookup underflows on the first corner.
   */
  lemma FacesRejectModelAsWritten(data: string, parse: FloatParser)
    requires ParseLines(AsWritten, Lines(data), parse).Ok?
    requires FaceCount(data) > 0
    ensures LoadObj(AsWritten, data, parse) == Err(CounterUnderflow(0))
  {
    var pools := ParseLines(AsWritten, Lines(data), parse).value;
    FacesFollowFileOrder(AsWritten, Lines(data), parse, pools);
    CounterLookupRejectsEveryFace(pools);
  }
}
