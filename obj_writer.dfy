/**
  A canonical OBJ writer for the pools the first pass produces: all `v` lines, then
  all `vt` lines, then all `vn` lines, then one `f` line per three index entries,
  each line tokens separated by single spaces and ended by `\n`.

  Reading back what it writes gives the pools back: the corrected first pass is the
  writer's inverse. Floats are written by a formatter whose every output is one
  token; the pools come back exactly when each float they hold reads back through
  `parse` as itself, and a line whose float does not parse rejects the text.
 */
module ObjWriter {
  import opened Wrappers
  import opened Integers
  import opened Text
  import opened Vertices
  import opened Readings
  import opened ObjParser
  import opened ObjAssembler
  import opened ModelLoader

  /** How a float is written. */
  type FloatFormatter = F32 -> string

  /** Every float is written as one token, without whitespace. */
  predicate WritesWords(format: FloatFormatter) {
    forall x :: IsWord(format(x))
  }

  /** The text `format` gives `x` parses back as `x` (a NaN payload the parser never yields does not). */
  predicate ReadsBack(x: F32, format: FloatFormatter, parse: FloatParser) {
    parse(format(x)) == Some(x)
  }

  predicate Vec3ReadsBack(v: Vec3, format: FloatFormatter, parse: FloatParser) {
    ReadsBack(v.x, format, parse) && ReadsBack(v.y, format, parse) && ReadsBack(v.z, format, parse)
  }

  predicate Vec2ReadsBack(t: Vec2, format: FloatFormatter, parse: FloatParser) {
    ReadsBack(t.x, format, parse) && ReadsBack(t.y, format, parse)
  }

  /** Every float the pools hold reads back through `parse` as itself. */
  predicate FloatsReadBack(p: Pools, format: FloatFormatter, parse: FloatParser) {
    && (forall i :: 0 <= i < |p.positions| ==> Vec3ReadsBack(p.positions[i], format, parse))
    && (forall i :: 0 <= i < |p.uvs| ==> Vec2ReadsBack(p.uvs[i], format, parse))
    && (forall i :: 0 <= i < |p.normals| ==> Vec3ReadsBack(p.normals[i], format, parse))
  }

  /** All three written components of `v` parse as some float. */
  predicate Vec3Parses(v: Vec3, format: FloatFormatter, parse: FloatParser) {
    parse(format(v.x)).Some? && parse(format(v.y)).Some? && parse(format(v.z)).Some?
  }

  predicate Vec2Parses(t: Vec2, format: FloatFormatter, parse: FloatParser) {
    parse(format(t.x)).Some? && parse(format(t.y)).Some?
  }

  /** The vector read from the written components of `v`. */
  function ParsedVec3(v: Vec3, format: FloatFormatter, parse: FloatParser): Vec3
    requires Vec3Parses(v, format, parse)
  {
    Vec3(parse(format(v.x)).value, parse(format(v.y)).value, parse(format(v.z)).value)
  }

  function ParsedVec2(t: Vec2, format: FloatFormatter, parse: FloatParser): Vec2
    requires Vec2Parses(t, format, parse)
  {
    Vec2(parse(format(t.x)).value, parse(format(t.y)).value)
  }

  /** Pools a text can hold: one index of each kind per corner, three corners per face, `i32` indices. */
  predicate Writable(p: Pools) {
    && Balanced(p)
    && |p.positionIndices| % 3 == 0
    && (forall k :: 0 <= k < |p.positionIndices| ==> IsI32(p.positionIndices[k]))
    && (forall k :: 0 <= k < |p.uvIndices| ==> IsI32(p.uvIndices[k]))
    && (forall k :: 0 <= k < |p.normalIndices| ==> IsI32(p.normalIndices[k]))
  }

  function PositionText(v: Vec3, format: FloatFormatter): string {
    JoinWords(["v", format(v.x), format(v.y), format(v.z)])
  }

  function UvText(t: Vec2, format: FloatFormatter): string {
    JoinWords(["vt", format(t.x), format(t.y)])
  }

  function NormalText(n: Vec3, format: FloatFormatter): string {
    JoinWords(["vn", format(n.x), format(n.y), format(n.z)])
  }

  /** One `a/b/c` corner token. */
  function CornerText(position: int, uv: int, normal: int): string {
    JoinOn([FormatInt(position), FormatInt(uv), FormatInt(normal)], '/')
  }

  function FaceText(f: Face): string
    requires |f.positions| == 3 && |f.uvs| == 3 && |f.normals| == 3
  {
    JoinWords(["f", CornerText(f.positions[0], f.uvs[0], f.normals[0]),
                    CornerText(f.positions[1], f.uvs[1], f.normals[1]),
                    CornerText(f.positions[2], f.uvs[2], f.normals[2])])
  }

  function PositionLines(vs: seq<Vec3>, format: FloatFormatter): seq<string> {
    seq(|vs|, i requires 0 <= i < |vs| => PositionText(vs[i], format))
  }

  function UvLines(ts: seq<Vec2>, format: FloatFormatter): seq<string> {
    seq(|ts|, i requires 0 <= i < |ts| => UvText(ts[i], format))
  }

  function NormalLines(ns: seq<Vec3>, format: FloatFormatter): seq<string> {
    seq(|ns|, i requires 0 <= i < |ns| => NormalText(ns[i], format))
  }

  /** One `f` line per three entries of the index lists. */
  function FaceLines(p: Pools): seq<string>
    requires Balanced(p)
  {
    seq(|p.positionIndices| / 3, k requires 0 <= k < |p.positionIndices| / 3 => FaceText(FaceAt(p, k)))
  }

  /** The lines of the canonical text of some pools. */
  function ObjLines(p: Pools, format: FloatFormatter): seq<string>
    requires Writable(p)
  {
    PositionLines(p.positions, format) + UvLines(p.uvs, format) + NormalLines(p.normals, format)
    + FaceLines(p)
  }

  /** The canonical OBJ text of some pools. */
  function WriteObj(p: Pools, format: FloatFormatter): string
    requires Writable(p)
  {
    WriteLines(ObjLines(p, format))
  }

  // ---------------------------------------------------------------------------
  // Reading one written line

  /**
    A written `v` line appends what its three components parse as; it appends `v`
    itself when they read back, and it is rejected when one does not parse.
   */
  lemma PositionTextReads(q: Pools, v: Vec3, lineNumber: nat, format: FloatFormatter, parse: FloatParser)
    requires WritesWords(format)
    ensures Vec3ReadsBack(v, format, parse)
      ==> ParseLine(Intended, q, PositionText(v, format), lineNumber, parse) == Ok(q.(positions := q.positions + [v]))
    ensures Vec3Parses(v, format, parse)
      ==> ParseLine(Intended, q, PositionText(v, format), lineNumber, parse)
            == Ok(q.(positions := q.positions + [ParsedVec3(v, format, parse)]))
    ensures !Vec3Parses(v, format, parse)
      ==> ParseLine(Intended, q, PositionText(v, format), lineNumber, parse) == Err(Malformed(lineNumber, BadVertex))
  {
    var line := PositionText(v, format);
    var ws := ["v", format(v.x), format(v.y), format(v.z)];
    assert IsWord(ws[0]) && IsWord(ws[1]) && IsWord(ws[2]) && IsWord(ws[3]);
    SplitJoinedWords(ws);
    if Vec3Parses(v, format, parse) {
      var r := ParsedVec3(v, format, parse);
      PositionLineComponents(q, line, lineNumber, parse, r.x, r.y, r.z);
    } else {
      var i := if parse(format(v.x)).None? then 1 else if parse(format(v.y)).None? then 2 else 3;
      UnreadableCoordinateRejectsLine(Intended, q, line, lineNumber, parse, i);
    }
  }

  /** A written `vt` line appends what its two components parse as, or is rejected. */
  lemma UvTextReads(q: Pools, t: Vec2, lineNumber: nat, format: FloatFormatter, parse: FloatParser)
    requires WritesWords(format)
    ensures Vec2ReadsBack(t, format, parse)
      ==> ParseLine(Intended, q, UvText(t, format), lineNumber, parse) == Ok(q.(uvs := q.uvs + [t]))
    ensures Vec2Parses(t, format, parse)
      ==> ParseLine(Intended, q, UvText(t, format), lineNumber, parse)
            == Ok(q.(uvs := q.uvs + [ParsedVec2(t, format, parse)]))
    ensures !Vec2Parses(t, format, parse)
      ==> ParseLine(Intended, q, UvText(t, format), lineNumber, parse) == Err(Malformed(lineNumber, BadUv))
  {
    var line := UvText(t, format);
    var ws := ["vt", format(t.x), format(t.y)];
    assert IsWord(ws[0]) && IsWord(ws[1]) && IsWord(ws[2]);
    SplitJoinedWords(ws);
    if Vec2Parses(t, format, parse) {
      var r := ParsedVec2(t, format, parse);
      UvLineComponents(q, line, lineNumber, parse, r.x, r.y);
    } else {
      var i := if parse(format(t.x)).None? then 1 else 2;
      UnreadableCoordinateRejectsLine(Intended, q, line, lineNumber, parse, i);
    }
  }

  /** A written `vn` line appends what its three components parse as, or is rejected. */
  lemma NormalTextReads(q: Pools, n: Vec3, lineNumber: nat, format: FloatFormatter, parse: FloatParser)
    requires WritesWords(format)
    ensures Vec3ReadsBack(n, format, parse)
      ==> ParseLine(Intended, q, NormalText(n, format), lineNumber, parse) == Ok(q.(normals := q.normals + [n]))
    ensures Vec3Parses(n, format, parse)
      ==> ParseLine(Intended, q, NormalText(n, format), lineNumber, parse)
            == Ok(q.(normals := q.normals + [ParsedVec3(n, format, parse)]))
    ensures !Vec3Parses(n, format, parse)
      ==> ParseLine(Intended, q, NormalText(n, format), lineNumber, parse) == Err(Malformed(lineNumber, BadNormal))
  {
    var line := NormalText(n, format);
    var ws := ["vn", format(n.x), format(n.y), format(n.z)];
    assert IsWord(ws[0]) && IsWord(ws[1]) && IsWord(ws[2]) && IsWord(ws[3]);
    SplitJoinedWords(ws);
    if Vec3Parses(n, format, parse) {
      var r := ParsedVec3(n, format, parse);
      NormalLineComponents(q, line, lineNumber, parse, r.x, r.y, r.z);
    } else {
      var i := if parse(format(n.x)).None? then 1 else if parse(format(n.y)).None? then 2 else 3;
      UnreadableCoordinateRejectsLine(Intended, q, line, lineNumber, parse, i);
    }
  }

  /** A corner token is one word. */
  lemma CornerTextIsWord(position: int, uv: int, normal: int)
    ensures IsWord(CornerText(position, uv, normal))
  {
    var parts := [FormatInt(position), FormatInt(uv), FormatInt(normal)];
    FormattedIntIsWord(position);
    FormattedIntIsWord(uv);
    FormattedIntIsWord(normal);
    JoinedPiecesAreWord(parts, '/');
  }

  /** An `a/b/c` token whose three components read as the three indices. */
  predicate HoldsCorner(token: string, position: int, uv: int, normal: int) {
    var parts := SplitOn(token, '/');
    ReadIndex(parts, 0) == Ok(position) && ReadIndex(parts, 1) == Ok(uv) && ReadIndex(parts, 2) == Ok(normal)
  }

  /** Splitting a corner token on `/` and parsing its pieces gives its three indices back. */
  lemma CornerTextReads(position: int, uv: int, normal: int)
    requires IsI32(position) && IsI32(uv) && IsI32(normal)
    ensures HoldsCorner(CornerText(position, uv, normal), position, uv, normal)
  {
    var parts := [FormatInt(position), FormatInt(uv), FormatInt(normal)];
    FormattedIntIsWord(position);
    FormattedIntIsWord(uv);
    FormattedIntIsWord(normal);
    SplitJoinedPieces(parts, '/');
    ParseFormattedI32(position);
    ParseFormattedI32(uv);
    ParseFormattedI32(normal);
  }

  /** A face the writer can emit: three corners with `i32` indices. */
  predicate WritableFace(f: Face) {
    && |f.positions| == 3 && |f.uvs| == 3 && |f.normals| == 3
    && forall c :: 0 <= c < 3 ==> IsI32(f.positions[c]) && IsI32(f.uvs[c]) && IsI32(f.normals[c])
  }

  lemma FaceAtIsWritable(p: Pools, k: nat)
    requires Writable(p) && 3 * k + 3 <= |p.positionIndices|
    ensures WritableFace(FaceAt(p, k))
  {
    FaceAtCorner(p, k, 0);
    FaceAtCorner(p, k, 1);
    FaceAtCorner(p, k, 2);
  }

  /** Four words joined by spaces split back into those words. */
  lemma SplitFourWords(w0: string, w1: string, w2: string, w3: string)
    requires IsWord(w0) && IsWord(w1) && IsWord(w2) && IsWord(w3)
    ensures SplitWhitespace(JoinWords([w0, w1, w2, w3])) == [w0, w1, w2, w3]
    ensures IsPlainLine(JoinWords([w0, w1, w2, w3]))
  {
    var ws := [w0, w1, w2, w3];
    assert forall i :: 0 <= i < 4 ==> IsWord(ws[i]);
    SplitJoinedWords(ws);
    JoinedWordsArePlain(ws);
  }

  /** The four tokens of a written `f` line. */
  lemma FaceTokens(f: Face) returns (ws: seq<string>)
    requires WritableFace(f)
    ensures ws == ["f", CornerText(f.positions[0], f.uvs[0], f.normals[0]),
                        CornerText(f.positions[1], f.uvs[1], f.normals[1]),
                        CornerText(f.positions[2], f.uvs[2], f.normals[2])]
    ensures SplitWhitespace(FaceText(f)) == ws
    ensures IsPlainLine(FaceText(f))
  {
    var c0 := CornerText(f.positions[0], f.uvs[0], f.normals[0]);
    var c1 := CornerText(f.positions[1], f.uvs[1], f.normals[1]);
    var c2 := CornerText(f.positions[2], f.uvs[2], f.normals[2]);
    CornerTextIsWord(f.positions[0], f.uvs[0], f.normals[0]);
    CornerTextIsWord(f.positions[1], f.uvs[1], f.normals[1]);
    CornerTextIsWord(f.positions[2], f.uvs[2], f.normals[2]);
    assert IsWord("f");
    SplitFourWords("f", c0, c1, c2);
    ws := ["f", c0, c1, c2];
  }

  /** An `f` line whose corner tokens hold the indices of a face reads as that face. */
  lemma ReadFaceOfTokens(ws: seq<string>, f: Face)
    requires |ws| == 4 && |f.positions| == 3 && |f.uvs| == 3 && |f.normals| == 3
    requires forall c :: 0 <= c < 3 ==> HoldsCorner(ws[c + 1], f.positions[c], f.uvs[c], f.normals[c])
    ensures ReadFace(ws) == Ok(f)
  {
    forall c | 0 <= c < 3
      ensures CornerIndex(ws, c, 0) == Ok(f.positions[c])
      ensures CornerIndex(ws, c, 1) == Ok(f.uvs[c])
      ensures CornerIndex(ws, c, 2) == Ok(f.normals[c])
    {
      assert HoldsCorner(ws[c + 1], f.positions[c], f.uvs[c], f.normals[c]);
    }
    var r := ReadFace(ws);
    assert r.Ok?;
    assert r.value.positions == f.positions;
    assert r.value.uvs == f.uvs;
    assert r.value.normals == f.normals;
  }

  /** A line whose tokens read as a face appends that face's corners to the index lists. */
  lemma FaceLineReads(q: Pools, line: string, f: Face, lineNumber: nat, parse: FloatParser)
    requires |SplitWhitespace(line)| == 4 && SplitWhitespace(line)[0] == "f"
    requires ReadFace(SplitWhitespace(line)) == Ok(f)
    ensures ParseLine(Intended, q, line, lineNumber, parse)
      == Ok(q.(positionIndices := q.positionIndices + f.positions,
               uvIndices := q.uvIndices + f.uvs,
               normalIndices := q.normalIndices + f.normals))
  {
    assert KindOf(SplitWhitespace(line)) == FaceLine;
  }

  /** The tokens of a written `f` line read back as its face. */
  lemma FaceTextTokensRead(f: Face)
    requires WritableFace(f)
    ensures |SplitWhitespace(FaceText(f))| == 4 && SplitWhitespace(FaceText(f))[0] == "f"
    ensures ReadFace(SplitWhitespace(FaceText(f))) == Ok(f)
  {
    var ws := FaceTokens(f);
    WrittenFaceTokensRead(f, ws);
  }

  /** The four tokens a face is written as read back as that face. */
  lemma WrittenFaceTokensRead(f: Face, ws: seq<string>)
    requires WritableFace(f)
    requires ws == ["f", CornerText(f.positions[0], f.uvs[0], f.normals[0]),
                         CornerText(f.positions[1], f.uvs[1], f.normals[1]),
                         CornerText(f.positions[2], f.uvs[2], f.normals[2])]
    ensures ReadFace(ws) == Ok(f)
  {
    CornerTokenHolds(f, ws, 0);
    CornerTokenHolds(f, ws, 1);
    CornerTokenHolds(f, ws, 2);
    ReadFaceOfTokens(ws, f);
  }

  /** Corner token `c` of a written `f` line holds corner `c` of its face. */
  lemma CornerTokenHolds(f: Face, ws: seq<string>, c: nat)
    requires WritableFace(f) && c < 3 && |ws| == 4
    requires ws[c + 1] == CornerText(f.positions[c], f.uvs[c], f.normals[c])
    ensures HoldsCorner(ws[c + 1], f.positions[c], f.uvs[c], f.normals[c])
  {
    CornerTextReads(f.positions[c], f.uvs[c], f.normals[c]);
  }

  lemma FaceTextReads(q: Pools, f: Face, lineNumber: nat, parse: FloatParser)
    requires WritableFace(f)
    ensures ParseLine(Intended, q, FaceText(f), lineNumber, parse)
      == Ok(q.(positionIndices := q.positionIndices + f.positions,
               uvIndices := q.uvIndices + f.uvs,
               normalIndices := q.normalIndices + f.normals))
  {
    FaceTextTokensRead(f);
    FaceLineReads(q, FaceText(f), f, lineNumber, parse);
  }

  /** The first pass over one more line continues from the pools of the lines before it. */
  lemma LastLineRead(init: seq<string>, line: string, lineNumber: nat, parse: FloatParser, q: Pools, r: Pools)
    requires lineNumber == |init| + 1
    requires ParseLines(Intended, init, parse) == Ok(q)
    requires ParseLine(Intended, q, line, lineNumber, parse) == Ok(r)
    ensures ParseLines(Intended, init + [line], parse) == Ok(r)
  {
    var all := init + [line];
    assert all[..|all| - 1] == init;
    assert all[|all| - 1] == line;
  }

  lemma AppendTaken<T>(a: seq<T>, s: seq<T>, i: nat)
    requires i < |s|
    ensures a + s[..i] + [s[i]] == a + s[..i + 1]
  {
    assert s[..i + 1] == s[..i] + [s[i]];
  }

  // ---------------------------------------------------------------------------
  // Reading back each block of lines

  /** Line `i` of a block: the term the step premise of `BlockRead` is instantiated on. */
  function LineOf(block: seq<string>, i: nat): string
    requires i < |block|
  {
    block[i]
  }

  /**
    A block of lines read after `pre`, when line `i` of the block takes the pools
    from `states[i]` to `states[i + 1]`.
   */
  lemma {:induction false} BlockRead(pre: seq<string>, block: seq<string>, parse: FloatParser, states: seq<Pools>, n: nat)
    requires n <= |block| && |states| == |block| + 1
    requires ParseLines(Intended, pre, parse) == Ok(states[0])
    requires forall i {:trigger LineOf(block, i)} :: 0 <= i < |block| ==>
      ParseLine(Intended, states[i], LineOf(block, i), |pre| + i + 1, parse) == Ok(states[i + 1])
    ensures ParseLines(Intended, pre + block[..n], parse) == Ok(states[n])
  {
    if n == 0 {
      assert pre + block[..0] == pre;
    } else {
      BlockRead(pre, block, parse, states, n - 1);
      assert ParseLine(Intended, states[n - 1], LineOf(block, n - 1), |pre| + (n - 1) + 1, parse) == Ok(states[n]);
      LastLineRead(pre + block[..n - 1], block[n - 1], |pre| + (n - 1) + 1, parse, states[n - 1], states[n]);
      AppendTaken(pre, block, n - 1);
    }
  }

  /** The pools after each of the `v` lines of `vs`: the first `i` of them appended to the positions. */
  function PositionStates(q: Pools, vs: seq<Vec3>): (states: seq<Pools>)
    ensures |states| == |vs| + 1
  {
    seq(|vs| + 1, i requires 0 <= i <= |vs| => q.(positions := q.positions + vs[..i]))
  }

  /** Each `v` line, read after the ones before it, appends its own value. */
  lemma PositionStepsRead(pre: seq<string>, q: Pools, vs: seq<Vec3>, format: FloatFormatter, parse: FloatParser)
    requires WritesWords(format)
    requires forall i :: 0 <= i < |vs| ==> Vec3ReadsBack(vs[i], format, parse)
    ensures forall i {:trigger PositionLines(vs, format)[i]} :: 0 <= i < |vs| ==>
      ParseLine(Intended, PositionStates(q, vs)[i], PositionLines(vs, format)[i], |pre| + i + 1, parse) == Ok(PositionStates(q, vs)[i + 1])
  {
    var states := PositionStates(q, vs);
    forall i | 0 <= i < |vs|
      ensures ParseLine(Intended, states[i], PositionLines(vs, format)[i], |pre| + i + 1, parse) == Ok(states[i + 1])
    {
      PositionTextReads(states[i], vs[i], |pre| + i + 1, format, parse);
      AppendTaken(q.positions, vs, i);
    }
  }

  /** Reading back the `v` lines of `vs` appends `vs` to the positions. */
  lemma PositionLinesRead(pre: seq<string>, vs: seq<Vec3>, format: FloatFormatter, parse: FloatParser, q: Pools)
    requires WritesWords(format)
    requires forall i :: 0 <= i < |vs| ==> Vec3ReadsBack(vs[i], format, parse)
    requires ParseLines(Intended, pre, parse) == Ok(q)
    ensures ParseLines(Intended, pre + PositionLines(vs, format), parse) == Ok(q.(positions := q.positions + vs))
  {
    var block := PositionLines(vs, format);
    var states := PositionStates(q, vs);
    PositionStepsRead(pre, q, vs, format, parse);
    assert q.positions + vs[..0] == q.positions;
    BlockRead(pre, block, parse, states, |vs|);
    assert block[..|vs|] == block;
    assert vs[..|vs|] == vs;
  }

  /** The pools after each of the `vt` lines of `ts`: the first `i` of them appended to the texture coordinates. */
  function UvStates(q: Pools, ts: seq<Vec2>): (states: seq<Pools>)
    ensures |states| == |ts| + 1
  {
    seq(|ts| + 1, i requires 0 <= i <= |ts| => q.(uvs := q.uvs + ts[..i]))
  }

  /** Each `vt` line, read after the ones before it, appends its own value. */
  lemma UvStepsRead(pre: seq<string>, q: Pools, ts: seq<Vec2>, format: FloatFormatter, parse: FloatParser)
    requires WritesWords(format)
    requires forall i :: 0 <= i < |ts| ==> Vec2ReadsBack(ts[i], format, parse)
    ensures forall i {:trigger UvLines(ts, format)[i]} :: 0 <= i < |ts| ==>
      ParseLine(Intended, UvStates(q, ts)[i], UvLines(ts, format)[i], |pre| + i + 1, parse) == Ok(UvStates(q, ts)[i + 1])
  {
    var states := UvStates(q, ts);
    forall i | 0 <= i < |ts|
      ensures ParseLine(Intended, states[i], UvLines(ts, format)[i], |pre| + i + 1, parse) == Ok(states[i + 1])
    {
      UvTextReads(states[i], ts[i], |pre| + i + 1, format, parse);
      AppendTaken(q.uvs, ts, i);
    }
  }

  /** Reading back the `vt` lines of `ts` appends `ts` to the texture coordinates. */
  lemma UvLinesRead(pre: seq<string>, ts: seq<Vec2>, format: FloatFormatter, parse: FloatParser, q: Pools)
    requires WritesWords(format)
    requires forall i :: 0 <= i < |ts| ==> Vec2ReadsBack(ts[i], format, parse)
    requires ParseLines(Intended, pre, parse) == Ok(q)
    ensures ParseLines(Intended, pre + UvLines(ts, format), parse) == Ok(q.(uvs := q.uvs + ts))
  {
    var block := UvLines(ts, format);
    var states := UvStates(q, ts);
    UvStepsRead(pre, q, ts, format, parse);
    assert q.uvs + ts[..0] == q.uvs;
    BlockRead(pre, block, parse, states, |ts|);
    assert block[..|ts|] == block;
    assert ts[..|ts|] == ts;
  }

  /** The pools after each of the `vn` lines of `ns`: the first `i` of them appended to the normals. */
  function NormalStates(q: Pools, ns: seq<Vec3>): (states: seq<Pools>)
    ensures |states| == |ns| + 1
  {
    seq(|ns| + 1, i requires 0 <= i <= |ns| => q.(normals := q.normals + ns[..i]))
  }

  /** Each `vn` line, read after the ones before it, appends its own value. */
  lemma NormalStepsRead(pre: seq<string>, q: Pools, ns: seq<Vec3>, format: FloatFormatter, parse: FloatParser)
    requires WritesWords(format)
    requires forall i :: 0 <= i < |ns| ==> Vec3ReadsBack(ns[i], format, parse)
    ensures forall i {:trigger NormalLines(ns, format)[i]} :: 0 <= i < |ns| ==>
      ParseLine(Intended, NormalStates(q, ns)[i], NormalLines(ns, format)[i], |pre| + i + 1, parse) == Ok(NormalStates(q, ns)[i + 1])
  {
    var states := NormalStates(q, ns);
    forall i | 0 <= i < |ns|
      ensures ParseLine(Intended, states[i], NormalLines(ns, format)[i], |pre| + i + 1, parse) == Ok(states[i + 1])
    {
      NormalTextReads(states[i], ns[i], |pre| + i + 1, format, parse);
      AppendTaken(q.normals, ns, i);
    }
  }

  /** Reading back the `vn` lines of `ns` appends `ns` to the normals. */
  lemma NormalLinesRead(pre: seq<string>, ns: seq<Vec3>, format: FloatFormatter, parse: FloatParser, q: Pools)
    requires WritesWords(format)
    requires forall i :: 0 <= i < |ns| ==> Vec3ReadsBack(ns[i], format, parse)
    requires ParseLines(Intended, pre, parse) == Ok(q)
    ensures ParseLines(Intended, pre + NormalLines(ns, format), parse) == Ok(q.(normals := q.normals + ns))
  {
    var block := NormalLines(ns, format);
    var states := NormalStates(q, ns);
    NormalStepsRead(pre, q, ns, format, parse);
    assert q.normals + ns[..0] == q.normals;
    BlockRead(pre, block, parse, states, |ns|);
    assert block[..|ns|] == block;
    assert ns[..|ns|] == ns;
  }

  /** The index lists with the first `3n` entries of each of `p`'s appended. */
  function WithFaces(q: Pools, p: Pools, n: nat): Pools
    requires Balanced(p) && 3 * n <= |p.positionIndices|
  {
    q.(positionIndices := q.positionIndices + p.positionIndices[..3 * n],
       uvIndices := q.uvIndices + p.uvIndices[..3 * n],
       normalIndices := q.normalIndices + p.normalIndices[..3 * n])
  }

  /** Appending the indices of one more face to the first `3n` entries gives the first `3n + 3`. */
  lemma WithOneMoreFace(q: Pools, p: Pools, n: nat)
    requires Balanced(p) && 3 * n + 3 <= |p.positionIndices|
    ensures var r := WithFaces(q, p, n);
      var f := FaceAt(p, n);
      WithFaces(q, p, n + 1)
        == r.(positionIndices := r.positionIndices + f.positions,
              uvIndices := r.uvIndices + f.uvs,
              normalIndices := r.normalIndices + f.normals)
  {
    assert p.positionIndices[..3 * n + 3] == p.positionIndices[..3 * n] + p.positionIndices[3 * n..3 * n + 3];
    assert p.uvIndices[..3 * n + 3] == p.uvIndices[..3 * n] + p.uvIndices[3 * n..3 * n + 3];
    assert p.normalIndices[..3 * n + 3] == p.normalIndices[..3 * n] + p.normalIndices[3 * n..3 * n + 3];
  }

  /** All the faces of writable pools are all their index entries. */
  lemma WithAllFaces(q: Pools, p: Pools)
    requires Writable(p)
    ensures WithFaces(q, p, |p.positionIndices| / 3)
      == q.(positionIndices := q.positionIndices + p.positionIndices,
            uvIndices := q.uvIndices + p.uvIndices,
            normalIndices := q.normalIndices + p.normalIndices)
  {
    var n := |p.positionIndices| / 3;
    assert p.positionIndices[..3 * n] == p.positionIndices;
    assert p.uvIndices[..3 * n] == p.uvIndices;
    assert p.normalIndices[..3 * n] == p.normalIndices;
  }

  /** The pools after each `f` line of `p`: the first `3i` index entries appended. */
  function FaceStates(q: Pools, p: Pools): (states: seq<Pools>)
    requires Balanced(p)
    ensures |states| == |p.positionIndices| / 3 + 1
  {
    seq(|p.positionIndices| / 3 + 1, i requires 0 <= i <= |p.positionIndices| / 3 => WithFaces(q, p, i))
  }

  /** Each `f` line, read after the ones before it, appends its face's three corners. */
  lemma FaceStepsRead(pre: seq<string>, q: Pools, p: Pools, parse: FloatParser)
    requires Writable(p)
    ensures forall i {:trigger FaceLines(p)[i]} :: 0 <= i < |p.positionIndices| / 3 ==>
      ParseLine(Intended, FaceStates(q, p)[i], FaceLines(p)[i], |pre| + i + 1, parse) == Ok(FaceStates(q, p)[i + 1])
  {
    forall i | 0 <= i < |p.positionIndices| / 3
      ensures ParseLine(Intended, FaceStates(q, p)[i], FaceLines(p)[i], |pre| + i + 1, parse) == Ok(FaceStates(q, p)[i + 1])
    {
      FaceStepRead(q, p, i, |pre| + i + 1, parse);
    }
  }

  /** Face `k`'s line, read after the faces before it, appends its three corners. */
  lemma FaceStepRead(q: Pools, p: Pools, k: nat, lineNumber: nat, parse: FloatParser)
    requires Writable(p) && k < |p.positionIndices| / 3
    ensures ParseLine(Intended, FaceStates(q, p)[k], FaceLines(p)[k], lineNumber, parse) == Ok(FaceStates(q, p)[k + 1])
  {
    var f := FaceAt(p, k);
    FaceAtIsWritable(p, k);
    assert FaceLines(p)[k] == FaceText(f);
    assert FaceStates(q, p)[k] == WithFaces(q, p, k);
    assert FaceStates(q, p)[k + 1] == WithFaces(q, p, k + 1);
    FaceTextReads(WithFaces(q, p, k), f, lineNumber, parse);
    WithOneMoreFace(q, p, k);
  }

  /** Reading back the `f` lines of `p` appends `p`'s index lists. */
  lemma FaceLinesRead(pre: seq<string>, p: Pools, parse: FloatParser, q: Pools)
    requires Writable(p)
    requires ParseLines(Intended, pre, parse) == Ok(q)
    ensures ParseLines(Intended, pre + FaceLines(p), parse)
      == Ok(q.(positionIndices := q.positionIndices + p.positionIndices,
               uvIndices := q.uvIndices + p.uvIndices,
               normalIndices := q.normalIndices + p.normalIndices))
  {
    var n := |p.positionIndices| / 3;
    var block := FaceLines(p);
    FaceStepsRead(pre, q, p, parse);
    assert WithFaces(q, p, 0) == q;
    BlockRead(pre, block, parse, FaceStates(q, p), n);
    assert block[..n] == block;
    WithAllFaces(q, p);
  }

  // ---------------------------------------------------------------------------
  // The round trip

  predicate AllPlain(ls: seq<string>) {
    forall i :: 0 <= i < |ls| ==> IsPlainLine(ls[i])
  }

  /** Every line the writer emits is one `Lines` gives back unchanged. */
  lemma ObjLinesArePlain(p: Pools, format: FloatFormatter)
    requires Writable(p) && WritesWords(format)
    ensures AllPlain(ObjLines(p, format))
  {
    forall v | v in p.positions ensures IsPlainLine(PositionText(v, format)) {
      JoinedWordsArePlain(["v", format(v.x), format(v.y), format(v.z)]);
    }
    forall t | t in p.uvs ensures IsPlainLine(UvText(t, format)) {
      JoinedWordsArePlain(["vt", format(t.x), format(t.y)]);
    }
    forall n | n in p.normals ensures IsPlainLine(NormalText(n, format)) {
      JoinedWordsArePlain(["vn", format(n.x), format(n.y), format(n.z)]);
    }
    forall k | 0 <= k < |p.positionIndices| / 3 ensures IsPlainLine(FaceText(FaceAt(p, k))) {
      FaceAtIsWritable(p, k);
      var ws := FaceTokens(FaceAt(p, k));
    }
  }

  /** The corrected first pass reads the lines the writer emits back as the pools written. */
  lemma ObjLinesReadBack(p: Pools, format: FloatFormatter, parse: FloatParser)
    requires WritesWords(format) && FloatsReadBack(p, format, parse) && Writable(p)
    ensures ParseLines(Intended, ObjLines(p, format), parse) == Ok(p)
  {
    var l1 := PositionLines(p.positions, format);
    var l2 := l1 + UvLines(p.uvs, format);
    var l3 := l2 + NormalLines(p.normals, format);
    assert [] + l1 == l1;
    PositionLinesRead([], p.positions, format, parse, NoPools);
    var q1 := NoPools.(positions := p.positions);
    assert NoPools.(positions := [] + p.positions) == q1;
    UvLinesRead(l1, p.uvs, format, parse, q1);
    var q2 := q1.(uvs := p.uvs);
    assert q1.(uvs := [] + p.uvs) == q2;
    NormalLinesRead(l2, p.normals, format, parse, q2);
    var q3 := q2.(normals := p.normals);
    assert q2.(normals := [] + p.normals) == q3;
    FaceLinesRead(l3, p, parse, q3);
    assert q3.(positionIndices := [] + p.positionIndices, uvIndices := [] + p.uvIndices,
               normalIndices := [] + p.normalIndices) == p;
  }

  /**
    The corrected first pass reads the canonical text of any writable pools back as
    those pools: positions, texture coordinates and normals in order, and the index
    lists entry for entry.
   */
  lemma WrittenPoolsReadBack(p: Pools, format: FloatFormatter, parse: FloatParser)
    requires WritesWords(format) && FloatsReadBack(p, format, parse) && Writable(p)
    ensures ParseLines(Intended, Lines(WriteObj(p, format)), parse) == Ok(p)
  {
    ObjLinesArePlain(p, format);
    LinesOfWrittenLines(ObjLines(p, format));
    ObjLinesReadBack(p, format, parse);
  }

  /**
    Loading the canonical text of pools whose indices are all in range gives one
    vertex per corner, built from the entries the corner's indices name.
   */
  lemma WrittenModelLoads(p: Pools, format: FloatFormatter, parse: FloatParser)
    requires WritesWords(format) && FloatsReadBack(p, format, parse) && Writable(p)
    requires forall c :: 0 <= c < Corners(p) ==> CornerInPools(p, c)
    ensures LoadObj(Intended, WriteObj(p, format), parse).Ok?
    ensures var m := LoadObj(Intended, WriteObj(p, format), parse).value;
      && |m.vertices| == Corners(p)
      && forall c :: 0 <= c < Corners(p) ==> m.vertices[c] == CornerVertex(p, c)
  {
    WrittenPoolsReadBack(p, format, parse);
    AssemblyResolvesEveryCorner(p);
  }

  /** The pools of `WrittenTriangleLoads`: writable, every corner in range, every float reading back. */
  lemma TrianglePools(a: Vec3, b: Vec3, c: Vec3, t0: Vec2, t1: Vec2, n: Vec3, format: FloatFormatter, parse: FloatParser)
    returns (p: Pools)
    requires Vec3ReadsBack(a, format, parse) && Vec3ReadsBack(b, format, parse) && Vec3ReadsBack(c, format, parse)
    requires Vec2ReadsBack(t0, format, parse) && Vec2ReadsBack(t1, format, parse) && Vec3ReadsBack(n, format, parse)
    ensures p == Pools([a, b, c], [t0, t1], [n], [1, 2, 3], [1, 2, 1], [1, 1, 1])
    ensures Writable(p) && FloatsReadBack(p, format, parse) && Corners(p) == 3
    ensures forall k :: 0 <= k < Corners(p) ==> CornerInPools(p, k)
    ensures CornerVertex(p, 0) == Vertex(a, t0, n)
    ensures CornerVertex(p, 1) == Vertex(b, t1, n)
    ensures CornerVertex(p, 2) == Vertex(c, t0, n)
  {
    p := Pools([a, b, c], [t0, t1], [n], [1, 2, 3], [1, 2, 1], [1, 1, 1]);
    assert CornerInPools(p, 0) && CornerInPools(p, 1) && CornerInPools(p, 2);
  }

  /**
    A triangle with three positions, two texture coordinates and one normal, written
    and loaded back: corner `j` takes position `j`, the texture coordinates alternate
    and every corner shares the one normal.
   */
  lemma WrittenTriangleLoads(a: Vec3, b: Vec3, c: Vec3, t0: Vec2, t1: Vec2, n: Vec3,
                             format: FloatFormatter, parse: FloatParser)
    requires WritesWords(format)
    requires Vec3ReadsBack(a, format, parse) && Vec3ReadsBack(b, format, parse) && Vec3ReadsBack(c, format, parse)
    requires Vec2ReadsBack(t0, format, parse) && Vec2ReadsBack(t1, format, parse) && Vec3ReadsBack(n, format, parse)
    ensures var p := Pools([a, b, c], [t0, t1], [n], [1, 2, 3], [1, 2, 1], [1, 1, 1]);
      LoadObj(Intended, WriteObj(p, format), parse)
        == Ok(Model([Vertex(a, t0, n), Vertex(b, t1, n), Vertex(c, t0, n)], DefaultTextureId))
  {
    var p := TrianglePools(a, b, c, t0, t1, n, format, parse);
    WrittenModelLoads(p, format, parse);
    var m := LoadObj(Intended, WriteObj(p, format), parse).value;
    assert m.vertices == [Vertex(a, t0, n), Vertex(b, t1, n), Vertex(c, t0, n)];
  }
}
