/**
  The first pass of the OBJ loader: it reads the text line by line and fills three
  attribute pools (`v` positions, `vt` texture coordinates, `vn` normals) and three
  index lists (the `a/b/c` corners of each `f` line).

  `ParseLines` is the specification, a fold of `ParseLine` over the lines; the method
  `ParsePools` is the loop that pushes onto six growing sequences, proved equal to it.
 */
module ObjParser {
  import opened Wrappers
  import opened Text
  import opened Vertices
  import opened Readings

  /** `str::parse::<f32>`. Float syntax is not modelled, so every reader takes it as a parameter. */
  type FloatParser = string -> Option<F32>

  /** Why one line was rejected; each case is a panic of the source. */
  datatype LineError =
    | EmptyLine      // `line_data[0]` on a line with no tokens
    | MissingToken   // a token or an `a/b/c` component that is not there
    | BadVertex      // "Unable to read vertex"
    | BadUv          // "Unable to read uv coordinate"
    | BadNormal      // "Unable to read normal"
    | BadIndex       // "malformed file": a face component that is not an i32

  datatype Pool = PositionPool | UvPool | NormalPool

  /** Every way an OBJ load can fail. No failure returns a partial model. */
  datatype ObjError =
    | Malformed(lineNumber: nat, problem: LineError)
    | IndexOutOfRange(pool: Pool, corner: nat, index: int)
    | CounterUnderflow(corner: nat)
    | Unreadable

  /** The three attribute pools and the three index lists, in file order. */
  datatype Pools = Pools(
    positions: seq<Vec3>, uvs: seq<Vec2>, normals: seq<Vec3>,
    positionIndices: seq<int>, uvIndices: seq<int>, normalIndices: seq<int>)

  const NoPools := Pools([], [], [], [], [], [])

  /** The three corners of one `f` line, split by attribute. */
  datatype Face = Face(positions: seq<int>, uvs: seq<int>, normals: seq<int>)

  /** What a line declares, by its first token; the source matches on `line_data[0]`. */
  datatype LineKind = Blank | PositionLine | UvLine | NormalLine | FaceLine | OtherLine

  function KindOf(tokens: seq<string>): (k: LineKind)
    ensures k == Blank <==> |tokens| == 0
    ensures k == PositionLine <==> |tokens| > 0 && tokens[0] == "v"
    ensures k == UvLine <==> |tokens| > 0 && tokens[0] == "vt"
    ensures k == NormalLine <==> |tokens| > 0 && tokens[0] == "vn"
    ensures k == FaceLine <==> |tokens| > 0 && tokens[0] == "f"
  {
    if |tokens| == 0 then Blank
    else if tokens[0] == "v" then PositionLine
    else if tokens[0] == "vt" then UvLine
    else if tokens[0] == "vn" then NormalLine
    else if tokens[0] == "f" then FaceLine
    else OtherLine
  }

  function LineKindOf(line: string): LineKind {
    KindOf(SplitWhitespace(line))
  }

  /** The lines of one kind, in file order. */
  function LinesOfKind(lines: seq<string>, kind: LineKind): (r: seq<string>)
    ensures |r| <= |lines|
  {
    if |lines| == 0 then []
    else
      var last := lines[|lines| - 1];
      LinesOfKind(lines[..|lines| - 1], kind) + (if LineKindOf(last) == kind then [last] else [])
  }

  /** How many float components a line of `width` components has read. */
  function ComponentsRead(reading: Reading, width: nat): nat {
    if reading.AsWritten? && width > 0 then width - 1 else width
  }

  // ---------------------------------------------------------------------------
  // Readers for one line

  /** Token `i` is there and parses as a float. */
  predicate Readable(tokens: seq<string>, i: nat, parse: FloatParser) {
    i < |tokens| && parse(tokens[i]).Some?
  }

  /**
    Parses `tokens[1..count + 1]` as floats, left to right; the first token that is
    missing or unreadable is the error.
   */
  function ReadFloats(tokens: seq<string>, count: nat, parse: FloatParser, bad: LineError): (r: Result<seq<F32>, LineError>)
    ensures r.Ok? <==> forall i :: 1 <= i <= count ==> Readable(tokens, i, parse)
    ensures r.Ok? ==> |r.value| == count
    ensures r.Ok? ==> forall i :: 0 <= i < count ==> i + 1 < |tokens| && parse(tokens[i + 1]) == Some(r.value[i])
    ensures r.Err? ==> r.error == MissingToken || r.error == bad
    ensures r.Err? && count < |tokens| ==> r.error == bad
  {
    if count == 0 then Ok([])
    else match ReadFloats(tokens, count - 1, parse, bad)
      case Err(e) => Err(e)
      case Ok(prefix) =>
        if count >= |tokens| then assert !Readable(tokens, count, parse); Err(MissingToken)
        else match parse(tokens[count])
          case None => assert !Readable(tokens, count, parse); Err(bad)
          case Some(x) => Ok(prefix + [x])
  }

  /** Component `i` of what was read, or `0.0` for a component the loop never reached. */
  function Component(xs: seq<F32>, i: nat): F32 {
    if i < |xs| then xs[i] else Zero
  }

  /** Once the first `k` components fail, reading more of them fails with the same error. */
  lemma {:induction false} ReadFloatsErrorPersists(tokens: seq<string>, k: nat, count: nat, parse: FloatParser, bad: LineError)
    requires k <= count && ReadFloats(tokens, k, parse, bad).Err?
    ensures ReadFloats(tokens, count, parse, bad) == ReadFloats(tokens, k, parse, bad)
    decreases count
  {
    if k < count {
      ReadFloatsErrorPersists(tokens, k, count - 1, parse, bad);
    }
  }

  /**
    The source's component loop: a buffer of `width` zeros, then `verts[i - 1]` set
    from token `i` for `i` in `1..count + 1`, stopping at the first token that is
    missing or does not parse. It fails exactly as `ReadFloats` does, and otherwise
    holds what `ReadFloats` read, padded with `0.0`.
   */
  method ReadComponents(tokens: seq<string>, width: nat, count: nat, parse: FloatParser, bad: LineError)
    returns (r: Result<seq<F32>, LineError>)
    requires count <= width
    ensures r.Ok? <==> ReadFloats(tokens, count, parse, bad).Ok?
    ensures r.Err? ==> r.error == ReadFloats(tokens, count, parse, bad).error
    ensures r.Ok? ==> |r.value| == width
    ensures r.Ok? ==> forall j :: 0 <= j < width ==> r.value[j] == Component(ReadFloats(tokens, count, parse, bad).value, j)
  {
    var verts := new F32[width](_ => Zero);
    var i := 1;
    while i <= count
      invariant 1 <= i <= count + 1
      invariant ReadFloats(tokens, i - 1, parse, bad).Ok?
      invariant forall j :: 0 <= j < width ==> verts[j] == Component(ReadFloats(tokens, i - 1, parse, bad).value, j)
    {
      if i >= |tokens| {
        ReadFloatsErrorPersists(tokens, i, count, parse, bad);
        return Err(MissingToken);
      }
      var val := parse(tokens[i]);
      if val.None? {
        ReadFloatsErrorPersists(tokens, i, count, parse, bad);
        return Err(bad);
      }
      verts[i - 1] := val.value;
      i := i + 1;
    }
    r := Ok(verts[..]);
  }

  function ReadVec3(tokens: seq<string>, count: nat, parse: FloatParser, bad: LineError): Result<Vec3, LineError> {
    var xs :- ReadFloats(tokens, count, parse, bad);
    Ok(Vec3(Component(xs, 0), Component(xs, 1), Component(xs, 2)))
  }

  function ReadVec2(tokens: seq<string>, count: nat, parse: FloatParser, bad: LineError): Result<Vec2, LineError> {
    var xs :- ReadFloats(tokens, count, parse, bad);
    Ok(Vec2(Component(xs, 0), Component(xs, 1)))
  }

  /** Component `component` of one `a/b/c` piece list, as an i32. */
  function ReadIndex(parts: seq<string>, component: nat): Result<int, LineError> {
    if component < |parts| then
      match ParseI32(parts[component])
      case Some(n) => Ok(n)
      case None => Err(BadIndex)
    else Err(MissingToken)
  }

  /** Corner `corner` of an `f` line, component `component` of its `a/b/c` token. */
  function CornerIndex(tokens: seq<string>, corner: nat, component: nat): Result<int, LineError>
    requires corner < 3 < |tokens|
  {
    ReadIndex(SplitOn(tokens[corner + 1], '/'), component)
  }

  /** Component `component` of each of the three corners is present and an i32. */
  predicate ColumnReadable(tokens: seq<string>, component: nat)
    requires 3 < |tokens|
  {
    CornerIndex(tokens, 0, component).Ok? && CornerIndex(tokens, 1, component).Ok? && CornerIndex(tokens, 2, component).Ok?
  }

  /** One component of all three corners, first corner first. */
  function ReadColumn(tokens: seq<string>, component: nat): (r: Result<seq<int>, LineError>)
    requires 3 < |tokens|
    ensures r.Ok? <==> ColumnReadable(tokens, component)
    ensures r.Ok? ==> |r.value| == 3 && forall c :: 0 <= c < 3 ==> CornerIndex(tokens, c, component) == Ok(r.value[c])
  {
    match CornerIndex(tokens, 0, component)
    case Err(e) => Err(e)
    case Ok(a) =>
      match CornerIndex(tokens, 1, component)
      case Err(e) => Err(e)
      case Ok(b) =>
        match CornerIndex(tokens, 2, component)
        case Err(e) => Err(e)
        case Ok(c) => Ok([a, b, c])
  }

  /**
    An `f` line: three `a/b/c` tokens. Component 0 of each goes to the position
    list, component 1 to the texture-coordinate list, component 2 to the normal
    list; the components are read column by column, as the source pushes them.
   */
  function ReadFace(tokens: seq<string>): (r: Result<Face, LineError>)
    ensures r.Ok? <==> 3 < |tokens| && ColumnReadable(tokens, 0) && ColumnReadable(tokens, 1) && ColumnReadable(tokens, 2)
    ensures r.Ok? ==> |r.value.positions| == 3 && |r.value.uvs| == 3 && |r.value.normals| == 3
    ensures r.Ok? ==> forall c :: 0 <= c < 3 ==>
      && CornerIndex(tokens, c, 0) == Ok(r.value.positions[c])
      && CornerIndex(tokens, c, 1) == Ok(r.value.uvs[c])
      && CornerIndex(tokens, c, 2) == Ok(r.value.normals[c])
  {
    if |tokens| < 4 then Err(MissingToken)
    else
      match ReadColumn(tokens, 0)
      case Err(e) => Err(e)
      case Ok(positions) =>
        match ReadColumn(tokens, 1)
        case Err(e) => Err(e)
        case Ok(uvs) =>
          match ReadColumn(tokens, 2)
          case Err(e) => Err(e)
          case Ok(normals) => Ok(Face(positions, uvs, normals))
  }

  // ---------------------------------------------------------------------------
  // The line loop

  /** One turn of the line loop: dispatch on the keyword and push what the line holds. */
  function ParseLine(reading: Reading, p: Pools, line: string, lineNumber: nat, parse: FloatParser): (r: Result<Pools, ObjError>)
    ensures r.Err? ==> r.error.Malformed? && r.error.lineNumber == lineNumber
    ensures r.Ok? ==> p.positions <= r.value.positions && p.uvs <= r.value.uvs && p.normals <= r.value.normals
  {
    var tokens := SplitWhitespace(line);
    match KindOf(tokens) {
      case Blank =>
        if reading.AsWritten? then Err(Malformed(lineNumber, EmptyLine)) else Ok(p)
      case PositionLine =>
        (match ReadVec3(tokens, ComponentsRead(reading, 3), parse, BadVertex)
         case Err(e) => Err(Malformed(lineNumber, e))
         case Ok(v) => Ok(p.(positions := p.positions + [v])))
      case UvLine =>
        (match ReadVec2(tokens, ComponentsRead(reading, 2), parse, BadUv)
         case Err(e) => Err(Malformed(lineNumber, e))
         case Ok(t) => Ok(p.(uvs := p.uvs + [t])))
      case NormalLine =>
        (match ReadVec3(tokens, ComponentsRead(reading, 3), parse, BadNormal)
         case Err(e) => Err(Malformed(lineNumber, e))
         case Ok(n) => Ok(p.(normals := p.normals + [n])))
      case FaceLine =>
        (match ReadFace(tokens)
         case Err(e) => Err(Malformed(lineNumber, e))
         case Ok(f) => Ok(p.(positionIndices := p.positionIndices + f.positions,
                             uvIndices := p.uvIndices + f.uvs,
                             normalIndices := p.normalIndices + f.normals)))
      case OtherLine => Ok(p)
    }
  }

  /**
    The whole first pass: the line loop from empty pools, stopping at the first
    rejected line (line numbers count from 1). Every `f` line adds three entries to
    each index list, so the three lists always have equal length.
   */
  function ParseLines(reading: Reading, lines: seq<string>, parse: FloatParser): (r: Result<Pools, ObjError>)
    ensures r.Ok? ==> |r.value.uvIndices| == |r.value.positionIndices|
    ensures r.Ok? ==> |r.value.normalIndices| == |r.value.positionIndices|
  {
    if |lines| == 0 then Ok(NoPools)
    else
      var p :- ParseLines(reading, lines[..|lines| - 1], parse);
      ParseLine(reading, p, lines[|lines| - 1], |lines|, parse)
  }

  /** The source's first loop, pushing onto six growing sequences. */
  method ParsePools(lines: seq<string>, parse: FloatParser) returns (r: Result<Pools, ObjError>)
    ensures r == ParseLines(Intended, lines, parse)
  {
    var positions: seq<Vec3> := [];
    var uvs: seq<Vec2> := [];
    var normals: seq<Vec3> := [];
    var positionIndices: seq<int> := [];
    var uvIndices: seq<int> := [];
    var normalIndices: seq<int> := [];
    var i := 0;
    while i < |lines|
      invariant 0 <= i <= |lines|
      invariant ParseLines(Intended, lines[..i], parse)
        == Ok(Pools(positions, uvs, normals, positionIndices, uvIndices, normalIndices))
    {
      ghost var before := Pools(positions, uvs, normals, positionIndices, uvIndices, normalIndices);
      assert lines[..i + 1][..i] == lines[..i];
      assert ParseLines(Intended, lines[..i + 1], parse) == ParseLine(Intended, before, lines[i], i + 1, parse);
      var tokens := SplitWhitespace(lines[i]);
      match KindOf(tokens) {
        case Blank =>
        case PositionLine =>
          var v := ReadVec3(tokens, 3, parse, BadVertex);
          if v.Err? {
            FirstErrorIsFinal(Intended, lines, parse, i + 1);
            return Err(Malformed(i + 1, v.error));
          }
          positions := positions + [v.value];
        case UvLine =>
          var t := ReadVec2(tokens, 2, parse, BadUv);
          if t.Err? {
            FirstErrorIsFinal(Intended, lines, parse, i + 1);
            return Err(Malformed(i + 1, t.error));
          }
          uvs := uvs + [t.value];
        case NormalLine =>
          var n := ReadVec3(tokens, 3, parse, BadNormal);
          if n.Err? {
            FirstErrorIsFinal(Intended, lines, parse, i + 1);
            return Err(Malformed(i + 1, n.error));
          }
          normals := normals + [n.value];
        case FaceLine =>
          var f := ReadFace(tokens);
          if f.Err? {
            FirstErrorIsFinal(Intended, lines, parse, i + 1);
            return Err(Malformed(i + 1, f.error));
          }
          positionIndices := positionIndices + f.value.positions;
          uvIndices := uvIndices + f.value.uvs;
          normalIndices := normalIndices + f.value.normals;
        case OtherLine =>
      }
      assert ParseLine(Intended, before, lines[i], i + 1, parse)
        == Ok(Pools(positions, uvs, normals, positionIndices, uvIndices, normalIndices));
      i := i + 1;
    }
    assert lines[..i] == lines;
    r := Ok(Pools(positions, uvs, normals, positionIndices, uvIndices, normalIndices));
  }

  // ---------------------------------------------------------------------------
  // Properties of the first pass

  /** A successful pass has a successful prefix, and the last line extends it. */
  lemma SplitLast(reading: Reading, lines: seq<string>, parse: FloatParser, p: Pools) returns (q: Pools)
    requires |lines| > 0 && ParseLines(reading, lines, parse) == Ok(p)
    ensures ParseLines(reading, lines[..|lines| - 1], parse) == Ok(q)
    ensures ParseLine(reading, q, lines[|lines| - 1], |lines|, parse) == Ok(p)
  {
    q := ParseLines(reading, lines[..|lines| - 1], parse).value;
  }

  /** What one line adds to the attribute pools: one entry to the pool of its kind, or nothing. */
  lemma CoordinateLineStep(reading: Reading, q: Pools, line: string, lineNumber: nat, parse: FloatParser, p: Pools)
    requires ParseLine(reading, q, line, lineNumber, parse) == Ok(p)
    ensures p.positions == q.positions + (if LineKindOf(line) == PositionLine then
      [ReadVec3(SplitWhitespace(line), ComponentsRead(reading, 3), parse, BadVertex).value] else [])
    ensures LineKindOf(line) == PositionLine ==> ReadVec3(SplitWhitespace(line), ComponentsRead(reading, 3), parse, BadVertex).Ok?
    ensures p.uvs == q.uvs + (if LineKindOf(line) == UvLine then
      [ReadVec2(SplitWhitespace(line), ComponentsRead(reading, 2), parse, BadUv).value] else [])
    ensures LineKindOf(line) == UvLine ==> ReadVec2(SplitWhitespace(line), ComponentsRead(reading, 2), parse, BadUv).Ok?
    ensures p.normals == q.normals + (if LineKindOf(line) == NormalLine then
      [ReadVec3(SplitWhitespace(line), ComponentsRead(reading, 3), parse, BadNormal).value] else [])
    ensures LineKindOf(line) == NormalLine ==> ReadVec3(SplitWhitespace(line), ComponentsRead(reading, 3), parse, BadNormal).Ok?
  {
  }

  /** The position pool keeps file order: position k is what the k-th `v` line holds. */
  lemma {:induction false} PositionsFollowFileOrder(reading: Reading, lines: seq<string>, parse: FloatParser, p: Pools)
    requires ParseLines(reading, lines, parse) == Ok(p)
    ensures |p.positions| == |LinesOfKind(lines, PositionLine)|
    ensures forall k :: 0 <= k < |p.positions| ==>
      ReadVec3(SplitWhitespace(LinesOfKind(lines, PositionLine)[k]), ComponentsRead(reading, 3), parse, BadVertex) == Ok(p.positions[k])
  {
    if |lines| > 0 {
      var q := SplitLast(reading, lines, parse, p);
      var prefix := lines[..|lines| - 1];
      PositionsFollowFileOrder(reading, prefix, parse, q);
      CoordinateLineStep(reading, q, lines[|lines| - 1], |lines|, parse, p);
      var before := LinesOfKind(prefix, PositionLine);
      var after := LinesOfKind(lines, PositionLine);
      forall k | 0 <= k < |p.positions|
        ensures ReadVec3(SplitWhitespace(after[k]), ComponentsRead(reading, 3), parse, BadVertex) == Ok(p.positions[k])
      {
        if k < |q.positions| {
          assert after[k] == before[k] && p.positions[k] == q.positions[k];
        }
      }
    }
  }

  /** The texture-coordinate pool keeps file order: entry k is what the k-th `vt` line holds. */
  lemma {:induction false} UvsFollowFileOrder(reading: Reading, lines: seq<string>, parse: FloatParser, p: Pools)
    requires ParseLines(reading, lines, parse) == Ok(p)
    ensures |p.uvs| == |LinesOfKind(lines, UvLine)|
    ensures forall k :: 0 <= k < |p.uvs| ==>
      ReadVec2(SplitWhitespace(LinesOfKind(lines, UvLine)[k]), ComponentsRead(reading, 2), parse, BadUv) == Ok(p.uvs[k])
  {
    if |lines| > 0 {
      var q := SplitLast(reading, lines, parse, p);
      var prefix := lines[..|lines| - 1];
      UvsFollowFileOrder(reading, prefix, parse, q);
      CoordinateLineStep(reading, q, lines[|lines| - 1], |lines|, parse, p);
      var before := LinesOfKind(prefix, UvLine);
      var after := LinesOfKind(lines, UvLine);
      forall k | 0 <= k < |p.uvs|
        ensures ReadVec2(SplitWhitespace(after[k]), ComponentsRead(reading, 2), parse, BadUv) == Ok(p.uvs[k])
      {
        if k < |q.uvs| {
          assert after[k] == before[k] && p.uvs[k] == q.uvs[k];
        }
      }
    }
  }

  /** The normal pool keeps file order: normal k is what the k-th `vn` line holds. */
  lemma {:induction false} NormalsFollowFileOrder(reading: Reading, lines: seq<string>, parse: FloatParser, p: Pools)
    requires ParseLines(reading, lines, parse) == Ok(p)
    ensures |p.normals| == |LinesOfKind(lines, NormalLine)|
    ensures forall k :: 0 <= k < |p.normals| ==>
      ReadVec3(SplitWhitespace(LinesOfKind(lines, NormalLine)[k]), ComponentsRead(reading, 3), parse, BadNormal) == Ok(p.normals[k])
  {
    if |lines| > 0 {
      var q := SplitLast(reading, lines, parse, p);
      var prefix := lines[..|lines| - 1];
      NormalsFollowFileOrder(reading, prefix, parse, q);
      CoordinateLineStep(reading, q, lines[|lines| - 1], |lines|, parse, p);
      var before := LinesOfKind(prefix, NormalLine);
      var after := LinesOfKind(lines, NormalLine);
      forall k | 0 <= k < |p.normals|
        ensures ReadVec3(SplitWhitespace(after[k]), ComponentsRead(reading, 3), parse, BadNormal) == Ok(p.normals[k])
      {
        if k < |q.normals| {
          assert after[k] == before[k] && p.normals[k] == q.normals[k];
        }
      }
    }
  }

  /** The three corners of face k, read from the k-th `f` line, as the index lists hold them. */
  function FaceAt(p: Pools, k: nat): Face
    requires 3 * k + 3 <= |p.positionIndices|
    requires |p.uvIndices| == |p.positionIndices| == |p.normalIndices|
  {
    Face(p.positionIndices[3 * k..3 * k + 3], p.uvIndices[3 * k..3 * k + 3], p.normalIndices[3 * k..3 * k + 3])
  }

  /** Corner `j` of face k is entry `3k + j` of each index list. */
  lemma FaceAtCorner(p: Pools, k: nat, j: nat)
    requires 3 * k + 3 <= |p.positionIndices|
    requires |p.uvIndices| == |p.positionIndices| == |p.normalIndices|
    requires j < 3
    ensures FaceAt(p, k).positions[j] == p.positionIndices[3 * k + j]
    ensures FaceAt(p, k).uvs[j] == p.uvIndices[3 * k + j]
    ensures FaceAt(p, k).normals[j] == p.normalIndices[3 * k + j]
  {
  }

  /** What one line adds to the index lists: a face's three corners, or nothing. */
  lemma FaceLineStep(reading: Reading, q: Pools, line: string, lineNumber: nat, parse: FloatParser, p: Pools)
    requires ParseLine(reading, q, line, lineNumber, parse) == Ok(p)
    ensures LineKindOf(line) == FaceLine ==>
      && ReadFace(SplitWhitespace(line)).Ok?
      && p.positionIndices == q.positionIndices + ReadFace(SplitWhitespace(line)).value.positions
      && p.uvIndices == q.uvIndices + ReadFace(SplitWhitespace(line)).value.uvs
      && p.normalIndices == q.normalIndices + ReadFace(SplitWhitespace(line)).value.normals
    ensures LineKindOf(line) != FaceLine ==>
      p.positionIndices == q.positionIndices && p.uvIndices == q.uvIndices && p.normalIndices == q.normalIndices
  {
  }

  /** Appending a face keeps the earlier faces and puts the new one last. */
  lemma FaceAtAfterAppend(q: Pools, p: Pools, face: Face, faces: nat, k: nat)
    requires |q.uvIndices| == |q.positionIndices| == |q.normalIndices| == 3 * faces
    requires |face.positions| == |face.uvs| == |face.normals| == 3
    requires p.positionIndices == q.positionIndices + face.positions
    requires p.uvIndices == q.uvIndices + face.uvs
    requires p.normalIndices == q.normalIndices + face.normals
    requires k <= faces
    ensures k < faces ==> FaceAt(p, k) == FaceAt(q, k)
    ensures k == faces ==> FaceAt(p, k) == face
  {
  }

  /**
    The index lists keep file order: corners 3k, 3k+1 and 3k+2 of each list are
    components 0, 1 and 2 of the k-th `f` line's three tokens.
   */
  lemma {:induction false} FacesFollowFileOrder(reading: Reading, lines: seq<string>, parse: FloatParser, p: Pools)
    requires ParseLines(reading, lines, parse) == Ok(p)
    ensures |p.positionIndices| == 3 * |LinesOfKind(lines, FaceLine)|
    ensures forall k :: 0 <= k < |LinesOfKind(lines, FaceLine)| ==>
      ReadFace(SplitWhitespace(LinesOfKind(lines, FaceLine)[k])) == Ok(FaceAt(p, k))
  {
    if |lines| > 0 {
      var q := SplitLast(reading, lines, parse, p);
      var prefix := lines[..|lines| - 1];
      var last := lines[|lines| - 1];
      FacesFollowFileOrder(reading, prefix, parse, q);
      FaceLineStep(reading, q, last, |lines|, parse, p);
      var fq := LinesOfKind(prefix, FaceLine);
      var fp := LinesOfKind(lines, FaceLine);
      if LineKindOf(last) == FaceLine {
        var face := ReadFace(SplitWhitespace(last)).value;
        assert fp == fq + [last];
        forall k | 0 <= k < |fp|
          ensures ReadFace(SplitWhitespace(fp[k])) == Ok(FaceAt(p, k))
        {
          FaceAtAfterAppend(q, p, face, |fq|, k);
          if k < |fq| {
            assert fp[k] == fq[k];
          }
        }
      } else {
        assert fp == fq;
        forall k | 0 <= k < |fp|
          ensures ReadFace(SplitWhitespace(fp[k])) == Ok(FaceAt(p, k))
        {
          assert FaceAt(p, k) == FaceAt(q, k);
        }
      }
    }
  }

  /** A line whose keyword the loader does not know changes no pool and no index list. */
  lemma UnknownKeywordKeepsPools(reading: Reading, p: Pools, line: string, lineNumber: nat, parse: FloatParser)
    requires LineKindOf(line) == OtherLine || (LineKindOf(line) == Blank && reading.Intended?)
    ensures ParseLine(reading, p, line, lineNumber, parse) == Ok(p)
  {
  }

  /** The error a line raises on its own, whatever was read before it. */
  predicate Rejects(reading: Reading, line: string, parse: FloatParser) {
    ParseLine(reading, NoPools, line, 0, parse).Err?
  }

  /** Whether a line is rejected, and why, does not depend on the pools read before it. */
  lemma RejectionIgnoresPools(reading: Reading, p: Pools, line: string, lineNumber: nat, parse: FloatParser)
    ensures ParseLine(reading, p, line, lineNumber, parse).Err? == Rejects(reading, line, parse)
    ensures ParseLine(reading, p, line, lineNumber, parse).Err? ==>
      ParseLine(reading, p, line, lineNumber, parse) == Err(Malformed(lineNumber, ParseLine(reading, NoPools, line, 0, parse).error.problem))
  {
  }

  /** Once a prefix of the file is rejected, so is the file, with the same error. */
  lemma {:induction false} FirstErrorIsFinal(reading: Reading, lines: seq<string>, parse: FloatParser, k: nat)
    requires k <= |lines|
    requires ParseLines(reading, lines[..k], parse).Err?
    ensures ParseLines(reading, lines, parse) == ParseLines(reading, lines[..k], parse)
    decreases |lines| - k
  {
    if k < |lines| {
      var prefix := lines[..|lines| - 1];
      assert prefix[..k] == lines[..k];
      FirstErrorIsFinal(reading, prefix, parse, k);
    } else {
      assert lines[..k] == lines;
    }
  }

  /** A single rejected line anywhere rejects the whole file: no partial model is returned. */
  lemma RejectedLineRejectsFile(reading: Reading, lines: seq<string>, parse: FloatParser, i: nat)
    requires i < |lines|
    requires Rejects(reading, lines[i], parse)
    ensures ParseLines(reading, lines, parse).Err?
  {
    match ParseLines(reading, lines[..i], parse)
    case Err(_) =>
      FirstErrorIsFinal(reading, lines, parse, i);
    case Ok(q) =>
      var upto := lines[..i + 1];
      assert upto[..|upto| - 1] == lines[..i];
      assert upto[|upto| - 1] == lines[i];
      RejectionIgnoresPools(reading, q, lines[i], i + 1, parse);
      FirstErrorIsFinal(reading, lines, parse, i + 1);
  }

  /** The error a coordinate line raises for a component that is not a float. */
  function BadCoordinate(kind: LineKind): LineError {
    match kind
    case PositionLine => BadVertex
    case UvLine => BadUv
    case _ => BadNormal
  }

  /** How many components a coordinate line declares. */
  function Width(kind: LineKind): nat {
    if kind == UvLine then 2 else 3
  }

  /**
    In a `v`, `vt` or `vn` line whose components are all present, a component that
    does not parse as a float rejects the line.
   */
  lemma UnreadableCoordinateRejectsLine(reading: Reading, p: Pools, line: string, lineNumber: nat, parse: FloatParser, i: nat)
    requires LineKindOf(line) in {PositionLine, UvLine, NormalLine}
    requires 1 <= i <= ComponentsRead(reading, Width(LineKindOf(line))) < |SplitWhitespace(line)|
    requires parse(SplitWhitespace(line)[i]).None?
    ensures ParseLine(reading, p, line, lineNumber, parse) == Err(Malformed(lineNumber, BadCoordinate(LineKindOf(line))))
  {
    assert !Readable(SplitWhitespace(line), i, parse);
  }

  /** In an `f` line, a component that is missing or not an i32 rejects the line. */
  lemma UnreadableIndexRejectsLine(reading: Reading, p: Pools, line: string, lineNumber: nat, parse: FloatParser, k: nat)
    requires LineKindOf(line) == FaceLine && 3 < |SplitWhitespace(line)|
    requires k < 3 && !ColumnReadable(SplitWhitespace(line), k)
    ensures ParseLine(reading, p, line, lineNumber, parse).Err?
  {
    var tokens := SplitWhitespace(line);
    assert k == 0 || k == 1 || k == 2;
    assert ReadFace(tokens).Err?;
  }

  /**
    A `v` line with three float components: corrected, all three are pushed; as
    written, the loop `1..3` reads two and the third stays `0.0`.
   */
  lemma PositionLineComponents(p: Pools, line: string, lineNumber: nat, parse: FloatParser, x: F32, y: F32, z: F32)
    requires var t := SplitWhitespace(line);
      |t| == 4 && t[0] == "v" && parse(t[1]) == Some(x) && parse(t[2]) == Some(y) && parse(t[3]) == Some(z)
    ensures ParseLine(Intended, p, line, lineNumber, parse) == Ok(p.(positions := p.positions + [Vec3(x, y, z)]))
    ensures ParseLine(AsWritten, p, line, lineNumber, parse) == Ok(p.(positions := p.positions + [Vec3(x, y, Zero)]))
  {
    var t := SplitWhitespace(line);
    assert ReadFloats(t, 3, parse, BadVertex).value == [x, y, z];
    assert ReadFloats(t, 2, parse, BadVertex).value == [x, y];
  }

  /**
    A `vn` line with three float components: corrected, all three are pushed; as
    written, the third stays `0.0`.
   */
  lemma NormalLineComponents(p: Pools, line: string, lineNumber: nat, parse: FloatParser, x: F32, y: F32, z: F32)
    requires var t := SplitWhitespace(line);
      |t| == 4 && t[0] == "vn" && parse(t[1]) == Some(x) && parse(t[2]) == Some(y) && parse(t[3]) == Some(z)
    ensures ParseLine(Intended, p, line, lineNumber, parse) == Ok(p.(normals := p.normals + [Vec3(x, y, z)]))
    ensures ParseLine(AsWritten, p, line, lineNumber, parse) == Ok(p.(normals := p.normals + [Vec3(x, y, Zero)]))
  {
    var t := SplitWhitespace(line);
    assert ReadFloats(t, 3, parse, BadNormal).value == [x, y, z];
    assert ReadFloats(t, 2, parse, BadNormal).value == [x, y];
  }

  /**
    A `vt` line with two float components: corrected, both are pushed; as written,
    the loop `1..2` reads one and the second stays `0.0`.
   */
  lemma UvLineComponents(p: Pools, line: string, lineNumber: nat, parse: FloatParser, u: F32, v: F32)
    requires var t := SplitWhitespace(line);
      |t| == 3 && t[0] == "vt" && parse(t[1]) == Some(u) && parse(t[2]) == Some(v)
    ensures ParseLine(Intended, p, line, lineNumber, parse) == Ok(p.(uvs := p.uvs + [Vec2(u, v)]))
    ensures ParseLine(AsWritten, p, line, lineNumber, parse) == Ok(p.(uvs := p.uvs + [Vec2(u, Zero)]))
  {
    var t := SplitWhitespace(line);
    assert ReadFloats(t, 2, parse, BadUv).value == [u, v];
    assert ReadFloats(t, 1, parse, BadUv).value == [u];
  }
}
