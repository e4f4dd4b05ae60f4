/**
  The second pass of the OBJ loader: one vertex per face corner, looked up in the
  three attribute pools by the corner's 1-based indices.

  `Resolve` is the specification, a fold over the corners that stops at the first
  corner it cannot resolve; the method `Assemble` is the loop that pushes onto the
  vertex list, proved equal to it. Both readings of the source are kept: `Intended`
  looks entry `idx - 1` up for index `idx`, `AsWritten` uses the loop counter.
 */
module ObjAssembler {
  import opened Wrappers
  import opened Vertices
  import opened Readings
  import opened ObjParser

  /** The three index lists have one entry per face corner each. */
  predicate Balanced(p: Pools) {
    |p.uvIndices| == |p.positionIndices| && |p.normalIndices| == |p.positionIndices|
  }

  /** How many face corners the index lists describe. */
  function Corners(p: Pools): nat {
    |p.positionIndices|
  }

  /** A 1-based OBJ index names an entry of a pool of `size` entries. */
  predicate InPool(index: int, size: nat) {
    1 <= index <= size
  }

  /** Entry `index` (1-based) of a pool, or the error naming the pool, the corner and the index. */
  function Lookup<T>(pool: seq<T>, index: int, which: Pool, corner: nat): (r: Result<T, ObjError>)
    ensures r.Ok? <==> InPool(index, |pool|)
    ensures r.Ok? ==> r.value == pool[index - 1]
    ensures r.Err? ==> r.error == IndexOutOfRange(which, corner, index)
  {
    if InPool(index, |pool|) then Ok(pool[index - 1]) else Err(IndexOutOfRange(which, corner, index))
  }

  /**
    The 1-based indices corner `c` looks up in the position, uv and normal pools. As
    written, the loop counter stands in for all three, and `i - 1` on the unsigned
    counter underflows at the first corner.
   */
  function CornerIndices(reading: Reading, p: Pools, c: nat): (r: Result<(int, int, int), ObjError>)
    requires Balanced(p) && c < Corners(p)
    ensures reading.Intended? ==> r == Ok((p.positionIndices[c], p.uvIndices[c], p.normalIndices[c]))
    ensures reading.AsWritten? ==> (r.Err? <==> c == 0)
    ensures reading.AsWritten? && r.Ok? ==> r.value == (c, c, c)
    ensures r.Err? ==> r.error == CounterUnderflow(c)
  {
    if reading.Intended? then Ok((p.positionIndices[c], p.uvIndices[c], p.normalIndices[c]))
    else if c == 0 then Err(CounterUnderflow(0))
    else Ok((c, c, c))
  }

  /** Every index of corner `c` names an entry of its pool. */
  predicate CornerInPools(p: Pools, c: nat)
    requires Balanced(p) && c < Corners(p)
  {
    && InPool(p.positionIndices[c], |p.positions|)
    && InPool(p.uvIndices[c], |p.uvs|)
    && InPool(p.normalIndices[c], |p.normals|)
  }

  /** The vertex corner `c` stands for: entry `idx - 1` of each pool for index `idx`. */
  function CornerVertex(p: Pools, c: nat): Vertex
    requires Balanced(p) && c < Corners(p) && CornerInPools(p, c)
  {
    Vertex(p.positions[p.positionIndices[c] - 1], p.uvs[p.uvIndices[c] - 1], p.normals[p.normalIndices[c] - 1])
  }

  /** One turn of the assembly loop: the vertex of corner `c`, position first, then uv, then normal. */
  function ResolveCorner(reading: Reading, p: Pools, c: nat): (r: Result<Vertex, ObjError>)
    requires Balanced(p) && c < Corners(p)
    ensures reading.Intended? ==> (r.Ok? <==> CornerInPools(p, c))
    ensures reading.Intended? && r.Ok? ==> r.value == CornerVertex(p, c)
    ensures reading.Intended? && r.Err? ==> r.error.IndexOutOfRange? && r.error.corner == c
    ensures reading.AsWritten? && c == 0 ==> r == Err(CounterUnderflow(0))
  {
    var indices :- CornerIndices(reading, p, c);
    var position :- Lookup(p.positions, indices.0, PositionPool, c);
    var uv :- Lookup(p.uvs, indices.1, UvPool, c);
    var normal :- Lookup(p.normals, indices.2, NormalPool, c);
    Ok(Vertex(position, uv, normal))
  }

  /**
    The vertices of the first `n` corners, in corner order, or the error of the first
    corner that cannot be resolved.
   */
  function Resolve(reading: Reading, p: Pools, n: nat): (r: Result<seq<Vertex>, ObjError>)
    requires Balanced(p) && n <= Corners(p)
    ensures r.Ok? <==> forall c :: 0 <= c < n ==> ResolveCorner(reading, p, c).Ok?
    ensures r.Ok? ==> |r.value| == n
    ensures r.Ok? ==> forall c :: 0 <= c < n ==> ResolveCorner(reading, p, c) == Ok(r.value[c])
    ensures reading.Intended? && r.Err? ==> r.error.IndexOutOfRange? && r.error.corner < n
  {
    if n == 0 then Ok([])
    else
      match Resolve(reading, p, n - 1)
      case Err(e) => Err(e)
      case Ok(vs) =>
        match ResolveCorner(reading, p, n - 1)
        case Err(e) => Err(e)
        case Ok(v) => Ok(vs + [v])
  }

  /** The source's second loop, pushing one vertex per corner. */
  method Assemble(p: Pools) returns (r: Result<seq<Vertex>, ObjError>)
    requires Balanced(p)
    ensures r == Resolve(Intended, p, Corners(p))
  {
    var vertices: seq<Vertex> := [];
    var i := 0;
    while i < |p.positionIndices|
      invariant 0 <= i <= Corners(p)
      invariant Resolve(Intended, p, i) == Ok(vertices)
    {
      var position := Lookup(p.positions, p.positionIndices[i], PositionPool, i);
      var uv := Lookup(p.uvs, p.uvIndices[i], UvPool, i);
      var normal := Lookup(p.normals, p.normalIndices[i], NormalPool, i);
      if position.Err? || uv.Err? || normal.Err? {
        var e := if position.Err? then position.error else if uv.Err? then uv.error else normal.error;
        assert Resolve(Intended, p, i + 1) == Err(e);
        FirstErrorIsFinal(Intended, p, i + 1, Corners(p));
        return Err(e);
      }
      vertices := vertices + [Vertex(position.value, uv.value, normal.value)];
      i := i + 1;
    }
    r := Ok(vertices);
  }

  // ---------------------------------------------------------------------------
  // Properties of the second pass

  /** Once the first `k` corners fail, so do the first `n`, with the same error. */
  lemma {:induction false} FirstErrorIsFinal(reading: Reading, p: Pools, k: nat, n: nat)
    requires Balanced(p) && k <= n <= Corners(p)
    requires Resolve(reading, p, k).Err?
    ensures Resolve(reading, p, n) == Resolve(reading, p, k)
    decreases n - k
  {
    if k < n {
      FirstErrorIsFinal(reading, p, k, n - 1);
    }
  }

  /** The error reported is the one of the first corner that cannot be resolved. */
  lemma FirstBadCornerIsReported(reading: Reading, p: Pools, c: nat, n: nat)
    requires Balanced(p) && c < n <= Corners(p)
    requires ResolveCorner(reading, p, c).Err?
    requires forall d :: 0 <= d < c ==> ResolveCorner(reading, p, d).Ok?
    ensures Resolve(reading, p, n) == Err(ResolveCorner(reading, p, c).error)
  {
    assert Resolve(reading, p, c).Ok?;
    FirstErrorIsFinal(reading, p, c + 1, n);
  }

  /**
    Assembly succeeds exactly when every index of every corner names an entry of its
    pool, and then vertex k is built from entries `idx - 1` of corner k's indices.
   */
  lemma AssemblyResolvesEveryCorner(p: Pools)
    requires Balanced(p)
    ensures Resolve(Intended, p, Corners(p)).Ok? <==> forall c :: 0 <= c < Corners(p) ==> CornerInPools(p, c)
    ensures Resolve(Intended, p, Corners(p)).Ok? ==>
      forall c :: 0 <= c < Corners(p) ==> Resolve(Intended, p, Corners(p)).value[c] == CornerVertex(p, c)
  {
    var r := Resolve(Intended, p, Corners(p));
    if r.Ok? {
      forall c | 0 <= c < Corners(p) ensures CornerInPools(p, c) && r.value[c] == CornerVertex(p, c) {
        assert ResolveCorner(Intended, p, c) == Ok(r.value[c]);
      }
    } else {
      var c :| 0 <= c < Corners(p) && ResolveCorner(Intended, p, c).Err?;
      assert !CornerInPools(p, c);
    }
  }

  /**
    An index of 0, a negative index or one beyond its pool makes assembly fail with
    `IndexOutOfRange`, never with a read outside a pool.
   */
  lemma BadIndexRejectsMesh(p: Pools, c: nat)
    requires Balanced(p) && c < Corners(p)
    requires !InPool(p.positionIndices[c], |p.positions|) || !InPool(p.uvIndices[c], |p.uvs|) || !InPool(p.normalIndices[c], |p.normals|)
    ensures Resolve(Intended, p, Corners(p)).Err?
    ensures Resolve(Intended, p, Corners(p)).error.IndexOutOfRange?
  {
    assert !CornerInPools(p, c);
    AssemblyResolvesEveryCorner(p);
  }

  /**
    As written, the lookup uses the loop counter `i - 1`, which underflows on the
    first corner: any model with a face fails, whatever its indices.
   */
  lemma CounterLookupRejectsEveryFace(p: Pools)
    requires Balanced(p) && Corners(p) > 0
    ensures Resolve(AsWritten, p, Corners(p)) == Err(CounterUnderflow(0))
  {
    FirstBadCornerIsReported(AsWritten, p, 0, Corners(p));
  }
}
