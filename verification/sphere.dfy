/**
 * The shared sphere mesh of src/Application.cpp (`Sphere::GenerateSphereVA`):
 * a (64+1) x (64+1) vertex grid drawn as one triangle strip, the
 * interleaving of vertex attributes into one float array, and the lazily
 * created vertex array every `Sphere` shares. Vertex positions come from
 * cos/sin and are not modelled; texture coordinates are exact.
 */
module Sphere {
  import opened Common
  import Buffer
  import VertexArrays

  const X_SEGMENTS: nat := 64
  const Y_SEGMENTS: nat := 64

  /** Vertices per grid row, and vertices in the grid. */
  const ROW_LENGTH: nat := X_SEGMENTS + 1
  const VERTEX_COUNT: nat := (X_SEGMENTS + 1) * (Y_SEGMENTS + 1)

  /** Strip entries per band between two grid rows, and in the whole strip. */
  const ROW_ENTRIES: nat := 2 * ROW_LENGTH
  const INDEX_COUNT: nat := Y_SEGMENTS * ROW_ENTRIES

  /**
   * Entry `j` of band `y` of the strip, written independently of the loops:
   * column `j / 2`, counted from the left on even bands and from the right
   * on odd ones; on even bands the upper vertex comes first in each pair, on
   * odd bands the lower one.
   */
  function BandEntry(y: nat, j: nat): nat
    requires j < ROW_ENTRIES
  {
    var x := if y % 2 == 0 then j / 2 else X_SEGMENTS - j / 2;
    if (y % 2 == 0) == (j % 2 == 0) then y * ROW_LENGTH + x else (y + 1) * ROW_LENGTH + x
  }

  /** Entry `k` of the whole strip: band `k / ROW_ENTRIES`, position `k % ROW_ENTRIES`. */
  function StripIndex(k: nat): nat
    requires k < INDEX_COUNT
  {
    BandEntry(k / ROW_ENTRIES, k % ROW_ENTRIES)
  }

  /** Entry `j` of band `y` sits at position `y * ROW_ENTRIES + j` of the strip. */
  lemma StripIndexInBand(y: nat, j: nat)
    requires y < Y_SEGMENTS && j < ROW_ENTRIES
    ensures y * ROW_ENTRIES + j < INDEX_COUNT
    ensures StripIndex(y * ROW_ENTRIES + j) == BandEntry(y, j)
  {
    var k := y * ROW_ENTRIES + j;
    assert k / ROW_ENTRIES == y && k % ROW_ENTRIES == j;
  }

  /** The inner loop of an even band: left to right, upper vertex first in each pair. */
  method EvenBand(y: nat) returns (band: seq<nat>)
    requires y % 2 == 0
    ensures |band| == ROW_ENTRIES
    ensures forall j :: 0 <= j < |band| ==> band[j] == BandEntry(y, j)
  {
    band := [];
    for x := 0 to X_SEGMENTS + 1
      invariant |band| == 2 * x
      invariant forall j :: 0 <= j < |band| ==> band[j] == BandEntry(y, j)
    {
      assert (2 * x) / 2 == x && (2 * x + 1) / 2 == x;
      band := band + [y * (X_SEGMENTS + 1) + x, (y + 1) * (X_SEGMENTS + 1) + x];
    }
  }

  /** The inner loop of an odd band: right to left over a signed counter, lower vertex first. */
  method OddBand(y: nat) returns (band: seq<nat>)
    requires y % 2 == 1
    ensures |band| == ROW_ENTRIES
    ensures forall j :: 0 <= j < |band| ==> band[j] == BandEntry(y, j)
  {
    band := [];
    var x: int := X_SEGMENTS;
    while x >= 0
      invariant -1 <= x <= X_SEGMENTS
      invariant |band| == 2 * (X_SEGMENTS - x)
      invariant forall j :: 0 <= j < |band| ==> band[j] == BandEntry(y, j)
    {
      var j := 2 * (X_SEGMENTS - x);
      assert j / 2 == X_SEGMENTS - x && (j + 1) / 2 == X_SEGMENTS - x;
      band := band + [(y + 1) * (X_SEGMENTS + 1) + x, y * (X_SEGMENTS + 1) + x];
      x := x - 1;
    }
  }

  /**
   * The index loops of `GenerateSphereVA`: 64 bands of 65 pairs each, even
   * bands left to right (upper vertex first), odd bands right to left (lower
   * vertex first). The result is the strip entry by entry.
   */
  method GenerateIndices() returns (indices: seq<nat>)
    ensures |indices| == INDEX_COUNT == 8320
    ensures forall k :: 0 <= k < |indices| ==> indices[k] == StripIndex(k)
  {
    indices := [];
    var oddRow := false;
    for y := 0 to Y_SEGMENTS
      invariant |indices| == y * ROW_ENTRIES
      invariant oddRow <==> y % 2 == 1
      invariant forall k :: 0 <= k < |indices| ==> indices[k] == StripIndex(k)
    {
      var band;
      if !oddRow {
        band := EvenBand(y);
      } else {
        band := OddBand(y);
      }
      forall j | 0 <= j < ROW_ENTRIES
        ensures y * ROW_ENTRIES + j < INDEX_COUNT && StripIndex(y * ROW_ENTRIES + j) == band[j]
      {
        StripIndexInBand(y, j);
      }
      indices := indices + band;
      oddRow := !oddRow;
    }
  }

  /** Every strip entry names a vertex of the grid. */
  lemma StripIndicesReferToGridVertices(k: nat)
    requires k < INDEX_COUNT
    ensures StripIndex(k) < VERTEX_COUNT
  {
  }

  /** Band `y` passes through every vertex of grid rows `y` and `y + 1`. */
  lemma BandCoversBothRows(y: nat, x: nat)
    requires y < Y_SEGMENTS && x <= X_SEGMENTS
    ensures exists j :: 0 <= j < ROW_ENTRIES && BandEntry(y, j) == y * ROW_LENGTH + x
    ensures exists j :: 0 <= j < ROW_ENTRIES && BandEntry(y, j) == (y + 1) * ROW_LENGTH + x
  {
    if y % 2 == 0 {
      assert BandEntry(y, 2 * x) == y * ROW_LENGTH + x;
      assert BandEntry(y, 2 * x + 1) == (y + 1) * ROW_LENGTH + x;
    } else {
      assert BandEntry(y, 2 * (X_SEGMENTS - x) + 1) == y * ROW_LENGTH + x;
      assert BandEntry(y, 2 * (X_SEGMENTS - x)) == (y + 1) * ROW_LENGTH + x;
    }
  }

  /** Every triangle of the strip that lies within one band has three distinct corners. */
  lemma BandTrianglesAreProper(y: nat, j: nat)
    requires j + 2 < ROW_ENTRIES
    ensures BandEntry(y, j) != BandEntry(y, j + 1)
    ensures BandEntry(y, j + 1) != BandEntry(y, j + 2)
    ensures BandEntry(y, j) != BandEntry(y, j + 2)
  {
  }

  /** A `glm::vec2`. */
  datatype Vec2 = Vec2(x: real, y: real)

  /**
   * The texture coordinates of grid vertex `v`. The grid loops push `x` in
   * the outer loop and `y` in the inner one, so vertex `v` was pushed for
   * `x = v / 65`, `y = v % 65` and gets `(x / 64, y / 64)`.
   */
  function GridUV(v: nat): Vec2
  {
    Vec2((v / (Y_SEGMENTS + 1)) as real / X_SEGMENTS as real, (v % (Y_SEGMENTS + 1)) as real / Y_SEGMENTS as real)
  }

  /** The vertex pushed for `(x, y)` is number `x * 65 + y`. */
  lemma GridVertexNumber(x: nat, y: nat)
    requires y <= Y_SEGMENTS
    ensures GridUV(x * (Y_SEGMENTS + 1) + y) == Vec2(x as real / X_SEGMENTS as real, y as real / Y_SEGMENTS as real)
  {
    var v := x * (Y_SEGMENTS + 1) + y;
    assert v / (Y_SEGMENTS + 1) == x && v % (Y_SEGMENTS + 1) == y;
  }

  /** The texture-coordinate part of the grid loops of `GenerateSphereVA`. */
  method GenerateUV() returns (uv: seq<Vec2>)
    ensures |uv| == VERTEX_COUNT
    ensures forall v :: 0 <= v < |uv| ==> uv[v] == GridUV(v)
  {
    uv := [];
    for x := 0 to X_SEGMENTS + 1
      invariant |uv| == x * (Y_SEGMENTS + 1)
      invariant forall v :: 0 <= v < |uv| ==> uv[v] == GridUV(v)
    {
      for y := 0 to Y_SEGMENTS + 1
        invariant |uv| == x * (Y_SEGMENTS + 1) + y
        invariant forall v :: 0 <= v < |uv| ==> uv[v] == GridUV(v)
      {
        GridVertexNumber(x, y);
        uv := uv + [Vec2(x as real / X_SEGMENTS as real, y as real / Y_SEGMENTS as real)];
      }
    }
  }

  /** The floats one vertex contributes: position, then normal and uv when those arrays are non-empty. */
  function VertexFloats(p: Vec3, normals: seq<Vec3>, uv: seq<Vec2>, i: nat): (fs: seq<real>)
    requires |normals| == 0 || i < |normals|
    requires |uv| == 0 || i < |uv|
  {
    [p.x, p.y, p.z]
      + (if |normals| > 0 then [normals[i].x, normals[i].y, normals[i].z] else [])
      + (if |uv| > 0 then [uv[i].x, uv[i].y] else [])
  }

  /** Floats per vertex: 3, plus 3 with normals, plus 2 with texture coordinates. */
  function FloatsPerVertex(normals: seq<Vec3>, uv: seq<Vec2>): nat
  {
    3 + (if |normals| > 0 then 3 else 0) + (if |uv| > 0 then 2 else 0)
  }

  /**
   * The interleaving loop of `GenerateSphereVA`: one group of floats per
   * position, in position order. Normals and uv, when present, are read at
   * every position's index, so they must be at least as long.
   */
  function Interleave(positions: seq<Vec3>, normals: seq<Vec3>, uv: seq<Vec2>): (data: seq<real>)
    requires |normals| == 0 || |positions| <= |normals|
    requires |uv| == 0 || |positions| <= |uv|
    ensures |data| == |positions| * FloatsPerVertex(normals, uv)
    decreases |positions|
  {
    if |positions| == 0 then []
    else
      var n := |positions| - 1;
      Interleave(positions[..n], normals, uv) + VertexFloats(positions[n], normals, uv, n)
  }

  /**
   * Vertex `i`'s floats sit at `[i * w, (i + 1) * w)` of the interleaved
   * array, `w` being the floats per vertex: position, then normal, then uv.
   */
  lemma {:induction false} InterleavedVertexAt(positions: seq<Vec3>, normals: seq<Vec3>, uv: seq<Vec2>, i: nat)
    requires |normals| == 0 || |positions| <= |normals|
    requires |uv| == 0 || |positions| <= |uv|
    requires i < |positions|
    ensures var w := FloatsPerVertex(normals, uv);
      i * w + w <= |Interleave(positions, normals, uv)|
      && Interleave(positions, normals, uv)[i * w .. i * w + w] == VertexFloats(positions[i], normals, uv, i)
    decreases |positions|
  {
    var n := |positions| - 1;
    if i < n {
      InterleavedVertexAt(positions[..n], normals, uv, i);
      EarlierVertexKept(positions, normals, uv, i);
    } else {
      LastVertexAppended(positions, normals, uv);
    }
  }

  /** Appending a vertex leaves the floats of the earlier ones where they were. */
  lemma EarlierVertexKept(positions: seq<Vec3>, normals: seq<Vec3>, uv: seq<Vec2>, i: nat)
    requires |normals| == 0 || |positions| <= |normals|
    requires |uv| == 0 || |positions| <= |uv|
    requires i + 1 < |positions|
    requires var w := FloatsPerVertex(normals, uv); var front := Interleave(positions[..|positions| - 1], normals, uv);
      i * w + w <= |front| && front[i * w .. i * w + w] == VertexFloats(positions[i], normals, uv, i)
    ensures var w := FloatsPerVertex(normals, uv);
      i * w + w <= |Interleave(positions, normals, uv)|
      && Interleave(positions, normals, uv)[i * w .. i * w + w] == VertexFloats(positions[i], normals, uv, i)
  {
    var w := FloatsPerVertex(normals, uv);
    var n := |positions| - 1;
    var front := Interleave(positions[..n], normals, uv);
    var back := VertexFloats(positions[n], normals, uv, n);
    assert Interleave(positions, normals, uv) == front + back;
    SliceOfFront(front, back, i * w, i * w + w);
  }

  /** The last vertex's floats close the interleaved array. */
  lemma LastVertexAppended(positions: seq<Vec3>, normals: seq<Vec3>, uv: seq<Vec2>)
    requires |normals| == 0 || |positions| <= |normals|
    requires |uv| == 0 || |positions| <= |uv|
    requires 0 < |positions|
    ensures var w := FloatsPerVertex(normals, uv); var i := |positions| - 1;
      i * w + w <= |Interleave(positions, normals, uv)|
      && Interleave(positions, normals, uv)[i * w .. i * w + w] == VertexFloats(positions[i], normals, uv, i)
  {
    var n := |positions| - 1;
    var front := Interleave(positions[..n], normals, uv);
    var back := VertexFloats(positions[n], normals, uv, n);
    assert Interleave(positions, normals, uv) == front + back;
    SliceOfBack(front, back);
  }

  lemma SliceOfFront<T>(a: seq<T>, b: seq<T>, lo: nat, hi: nat)
    requires lo <= hi <= |a|
    ensures (a + b)[lo..hi] == a[lo..hi]
  {
  }

  lemma SliceOfBack<T>(a: seq<T>, b: seq<T>)
    ensures (a + b)[|a|..|a| + |b|] == b
  {
  }

  /**
   * With normals and texture coordinates for every vertex, as the sphere has,
   * each vertex takes exactly 8 floats: position (3), normal (3), uv (2),
   * the order of the `{Float3, Float3, Float2}` layout.
   */
  lemma SphereVerticesTakeEightFloats(positions: seq<Vec3>, normals: seq<Vec3>, uv: seq<Vec2>, i: nat)
    requires |positions| == |normals| == |uv| && i < |positions|
    ensures |Interleave(positions, normals, uv)| == 8 * |positions|
    ensures Interleave(positions, normals, uv)[8 * i .. 8 * i + 8] ==
      [positions[i].x, positions[i].y, positions[i].z, normals[i].x, normals[i].y, normals[i].z, uv[i].x, uv[i].y]
  {
    InterleavedVertexAt(positions, normals, uv, i);
  }

  /** The sphere's layout: position, normal and uv, laid out with stride 32. */
  const SPHERE_LAYOUT: Buffer.BufferLayout := Buffer.BufferLayout(
    [Buffer.BufferElement(Buffer.Float3, 12, 0, false), Buffer.BufferElement(Buffer.Float3, 12, 12, false),
     Buffer.BufferElement(Buffer.Float2, 8, 24, false)], 32)

  /**
   * The vertex array `GenerateSphereVA` returns, given the GL ids of its
   * buffers: the vertex buffer with the sphere layout attached from slot 0,
   * and an index buffer of 8320 indices, the length of the strip.
   */
  function GenerateSphereVA(vbId: nat, ibId: nat): (va: VertexArrays.VertexArray)
    ensures va.nextIndex == 3
    ensures va.vertexBuffers == [VertexArrays.VertexBuffer(vbId, SPHERE_LAYOUT)]
    ensures va.indexBuffer == Some(VertexArrays.IndexBuffer(ibId, 8320))
  {
    var (withVertices, _) := VertexArrays.AddVertexBuffer(VertexArrays.NEW_VERTEX_ARRAY, VertexArrays.VertexBuffer(vbId, SPHERE_LAYOUT));
    VertexArrays.SetIndexBuffer(withVertices, VertexArrays.IndexBuffer(ibId, INDEX_COUNT))
  }

  /** The layout attached to the sphere is the one the layout pass produces for `{Float3, Float3, Float2}`. */
  lemma SphereLayoutIsLaidOut()
    ensures Buffer.IsLaidOut(SPHERE_LAYOUT)
  {
    var es := SPHERE_LAYOUT.elements;
    assert es[..0] == [];
    assert es[..1][..0] == es[..0];
    assert es[..2][..1] == es[..1];
    assert es[..3][..2] == es[..2];
    assert es[..3] == es;
    assert Buffer.SizeSum(es[..1]) == 12 && Buffer.SizeSum(es[..2]) == 24 && Buffer.SizeSum(es) == 32;
  }

  /** A `Sphere`: its colour. */
  datatype SphereObject = SphereObject(color: Vec3)

  /**
   * The `Sphere` constructor with the static `sVA` as `cache`: the vertex
   * array is generated (as `generated`) only while `sVA` is null, and kept
   * unchanged once set.
   */
  function ConstructSphere(cache: Option<VertexArrays.VertexArray>, color: Vec3, generated: VertexArrays.VertexArray):
    (r: (SphereObject, Option<VertexArrays.VertexArray>))
    ensures r.0.color == color
    ensures r.1.Some?
    ensures cache.Some? ==> r.1 == cache
    ensures cache.None? ==> r.1 == Some(generated)
  {
    (SphereObject(color), if cache.None? then Some(generated) else cache)
  }

  /**
   * Constructing a run of spheres: the final `sVA` and how many times the
   * vertex array was generated.
   */
  function ConstructSpheres(cache: Option<VertexArrays.VertexArray>, colors: seq<Vec3>, generated: VertexArrays.VertexArray):
    (r: (Option<VertexArrays.VertexArray>, nat))
    decreases |colors|
  {
    if |colors| == 0 then (cache, 0)
    else
      var (_, next) := ConstructSphere(cache, colors[0], generated);
      var (final, count) := ConstructSpheres(next, colors[1..], generated);
      (final, count + (if cache.None? then 1 else 0))
  }

  /**
   * The vertex array is generated once at most, on the first construction
   * when `sVA` starts null; afterwards every sphere shares it.
   */
  lemma {:induction false} SphereVertexArrayGeneratedOnce(cache: Option<VertexArrays.VertexArray>, colors: seq<Vec3>, generated: VertexArrays.VertexArray)
    ensures var (final, count) := ConstructSpheres(cache, colors, generated);
      && count == (if cache.None? && |colors| > 0 then 1 else 0)
      && (cache.Some? ==> final == cache)
      && (cache.None? && |colors| > 0 ==> final == Some(generated))
    decreases |colors|
  {
    if |colors| > 0 {
      var (_, next) := ConstructSphere(cache, colors[0], generated);
      SphereVertexArrayGeneratedOnce(next, colors[1..], generated);
    }
  }
}
