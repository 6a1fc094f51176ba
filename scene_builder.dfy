// The integer half of Skateboard/Scene/SceneBuilder.cpp: the vertex and index
// counts of the procedural meshes, the index lists their generators write,
// and the start locations GenerateBuffersAndAccelerationStructures stores for
// each mesh. Vertex positions, normals and texture coordinates are floating
// point and are not part of this model; a mesh keeps only its vertex count.
module SceneBuilder {
  import opened D3D
  import opened Scene
  import opened MeshEngine

  /** MeshData: the name, the number of vertices, and the index list (a triangle list). */
  datatype MeshData = MeshData(name: string, vertexCount: nat, indices: seq<nat>)

  /** Every index refers to one of the mesh's vertices. */
  predicate IndicesInRange(indices: seq<nat>, vertexCount: nat)
  {
    forall k :: 0 <= k < |indices| ==> indices[k] < vertexCount
  }

  /** A resolution below the least one a generator accepts is raised to it. */
  function Clamped(resolution: nat, least: nat): (r: nat)
    ensures r >= least && (resolution >= least ==> r == resolution)
  {
    if resolution < least then least else resolution
  }

  /** A bool used as 0 or 1, as the generators do with `flag * 1u`. */
  function Bit(b: bool): nat
  {
    if b then 1 else 0
  }

  // ---------------------------------------------------------------------------
  // Arithmetic shared by the generators
  // ---------------------------------------------------------------------------

  lemma MulLeq(a: nat, b: nat, c: nat)
    requires a <= b
    ensures a * c <= b * c
  {
    assert b * c == a * c + (b - a) * c;
  }

  lemma MulSucc(k: nat, n: nat)
    ensures k * (n + 1) == k * n + k
  {
  }

  /** Vertex (x, y) of a grid w wide and h high is numbered x + y * w, below h * w. */
  lemma GridIndexBound(x: nat, y: nat, w: nat, h: nat)
    requires x < w && y < h
    ensures x + y * w < h * w
  {
    MulLeq(y, h - 1, w);
    assert (h - 1) * w + w == h * w;
  }

  lemma InRangeAppend(s: seq<nat>, t: seq<nat>, vertexCount: nat)
    requires IndicesInRange(s, vertexCount) && IndicesInRange(t, vertexCount)
    ensures IndicesInRange(s + t, vertexCount)
  {
    forall k | 0 <= k < |s + t|
      ensures (s + t)[k] < vertexCount
    {
      if k >= |s| {
        assert (s + t)[k] == t[k - |s|];
      }
    }
  }

  /** Writes three consecutive entries: one triangle. */
  method Put3(a: array<nat>, at: nat, triangle: seq<nat>)
    requires |triangle| == 3 && at + 3 <= a.Length
    modifies a
    ensures a[..at + 3] == old(a[..at]) + triangle
  {
    a[at] := triangle[0];
    a[at + 1] := triangle[1];
    a[at + 2] := triangle[2];
    assert a[..at] == old(a[..at]);
    assert a[at..at + 3] == triangle;
  }

  /** Writes six consecutive entries: one cell of a grid, as two triangles. */
  method Put6(a: array<nat>, at: nat, cell: seq<nat>)
    requires |cell| == 6 && at + 6 <= a.Length
    modifies a
    ensures a[..at + 6] == old(a[..at]) + cell
  {
    a[at] := cell[0];
    a[at + 1] := cell[1];
    a[at + 2] := cell[2];
    a[at + 3] := cell[3];
    a[at + 4] := cell[4];
    a[at + 5] := cell[5];
    assert a[..at] == old(a[..at]);
    assert a[at..at + 6] == cell;
  }

  // ---------------------------------------------------------------------------
  // Cone
  // ---------------------------------------------------------------------------

  /** Side triangle i: base vertices i and i + 1 with the apex, vertex r + 1. */
  function ConeSideTriangle(r: nat, i: nat): seq<nat>
  {
    [i, i + 1, r + 1]
  }

  /** Cap triangle i: the centre of the base, vertex r + 2, with base vertices i + 1 and i. */
  function ConeCapTriangle(r: nat, i: nat): seq<nat>
  {
    [r + 2, i + 1, i]
  }

  /** The first n side triangles. */
  function ConeSide(r: nat, n: nat): (s: seq<nat>)
    ensures |s| == 3 * n
  {
    if n == 0 then [] else ConeSide(r, n - 1) + ConeSideTriangle(r, n - 1)
  }

  /** The first n cap triangles. */
  function ConeCap(r: nat, n: nat): (s: seq<nat>)
    ensures |s| == 3 * n
  {
    if n == 0 then [] else ConeCap(r, n - 1) + ConeCapTriangle(r, n - 1)
  }

  /** The cone's index list: the side, then the cap when there is one. */
  function ConeIndices(r: nat, capMesh: bool): seq<nat>
  {
    ConeSide(r, r) + (if capMesh then ConeCap(r, r) else [])
  }

  lemma {:induction false} ConeSideInRange(r: nat, n: nat)
    requires n <= r
    ensures IndicesInRange(ConeSide(r, n), r + 2)
  {
    if n > 0 {
      ConeSideInRange(r, n - 1);
      InRangeAppend(ConeSide(r, n - 1), ConeSideTriangle(r, n - 1), r + 2);
    }
  }

  lemma {:induction false} ConeCapInRange(r: nat, n: nat)
    requires n <= r
    ensures IndicesInRange(ConeCap(r, n), r + 3)
  {
    if n > 0 {
      ConeCapInRange(r, n - 1);
      InRangeAppend(ConeCap(r, n - 1), ConeCapTriangle(r, n - 1), r + 3);
    }
  }

  /** The side loop of BuildCone: r triangles from the start of the list. */
  method WriteConeSide(a: array<nat>, r: nat)
    requires 3 * r <= a.Length
    modifies a
    ensures a[..3 * r] == ConeSide(r, r)
  {
    var currentIndex := 0;
    var i := 0;
    while i < r
      invariant i <= r && currentIndex == 3 * i
      invariant a[..currentIndex] == ConeSide(r, i)
    {
      Put3(a, currentIndex, ConeSideTriangle(r, i));
      i, currentIndex := i + 1, currentIndex + 3;
    }
  }

  /** The cap loop of BuildCone: r triangles after the side. */
  method WriteConeCap(a: array<nat>, r: nat)
    requires 6 * r <= a.Length
    modifies a
    ensures a[..6 * r] == old(a[..3 * r]) + ConeCap(r, r)
  {
    var currentIndex := 3 * r;
    var i := 0;
    while i < r
      invariant i <= r && currentIndex == 3 * r + 3 * i
      invariant a[..currentIndex] == old(a[..3 * r]) + ConeCap(r, i)
    {
      Put3(a, currentIndex, ConeCapTriangle(r, i));
      i, currentIndex := i + 1, currentIndex + 3;
    }
  }

  /**
   * BuildCone: the resolution is raised to at least 3; there are r + 2 + cap
   * vertices (r + 1 around the base, the apex, and the centre of the cap) and
   * (cap ? 2 : 1) * 3 * r indices, every one of them naming a vertex.
   */
  method BuildCone(resolution: nat, capMesh: bool) returns (data: MeshData)
    ensures var r := Clamped(resolution, 3);
      data.vertexCount == r + 2 + Bit(capMesh) && |data.indices| == (if capMesh then 2 else 1) * 3 * r
      && data.indices == ConeIndices(r, capMesh)
    ensures data.name == "Cone" && IndicesInRange(data.indices, data.vertexCount)
  {
    var r := resolution;
    if r < 3 {
      r := 3;
    }
    assert r == Clamped(resolution, 3);
    var vertexCount := r + 2 + Bit(capMesh);
    var indexCount := (if capMesh then 2 else 1) * 3 * r;
    var a := new nat[indexCount](_ => 0);
    WriteConeSide(a, r);
    if capMesh {
      WriteConeCap(a, r);
    }
    var indices := a[..];
    assert indices == ConeIndices(r, capMesh) by {
      assert a[..] == a[..indexCount];
    }
    ConeSideInRange(r, r);
    ConeCapInRange(r, r);
    InRangeAppend(ConeSide(r, r), if capMesh then ConeCap(r, r) else [], vertexCount);
    data := MeshData("Cone", vertexCount, indices);
  }

  // ---------------------------------------------------------------------------
  // Cube
  // ---------------------------------------------------------------------------

  /**
   * The six index rows of the cube, one per face: two triangles, a face
   * owning four vertices.
   */
  function CubeFace(f: nat): (row: seq<nat>)
    requires f < 6
    ensures |row| == 6
  {
    match f
    case 0 => [2, 1, 0, 3, 2, 0]
    case 1 => [4, 5, 6, 4, 6, 7]
    case 2 => [10, 9, 8, 11, 10, 8]
    case 3 => [14, 13, 12, 15, 14, 12]
    case 4 => [18, 17, 16, 19, 18, 16]
    case _ => [22, 21, 20, 23, 22, 20]
  }

  /** The 36 indices of the cube: the six face rows, in order. */
  const CubeIndices: seq<nat> := CubeFace(0) + CubeFace(1) + CubeFace(2) + CubeFace(3) + CubeFace(4) + CubeFace(5)

  /**
   * BuildCube: 24 vertices (four per face, so that each face has its own
   * normals) and 36 indices.
   */
  function CubeMesh(): (data: MeshData)
    ensures data.name == "Cube" && data.vertexCount == 24 && |data.indices| == 36
  {
    MeshData("Cube", 24, CubeIndices)
  }

  /** Face f draws its two triangles from its own four vertices 4f to 4f + 3 only. */
  lemma CubeFaceIsLocal(f: nat)
    requires f < 6
    ensures forall x :: x in CubeFace(f) ==> 4 * f <= x < 4 * f + 4
  {
  }

  /**
   * Every face of the cube is drawn from its own four vertices, so every
   * cube index names one of the 24 vertices.
   */
  lemma CubeFacesAreLocal()
    ensures forall f, x :: 0 <= f < 6 && x in CubeFace(f) ==> 4 * f <= x < 4 * f + 4
    ensures IndicesInRange(CubeMesh().indices, CubeMesh().vertexCount)
  {
    forall f | 0 <= f < 6
      ensures forall x :: x in CubeFace(f) ==> 4 * f <= x < 4 * f + 4
    {
      CubeFaceIsLocal(f);
    }
    forall k | 0 <= k < |CubeIndices|
      ensures CubeIndices[k] < 24
    {
      assert CubeIndices[k] in CubeIndices;
    }
  }

  // ---------------------------------------------------------------------------
  // CubeSphere
  // ---------------------------------------------------------------------------

  /** Faces 0 (top), 3 and 4 are indexed clockwise, the others anticlockwise. */
  predicate ClockWise(face: nat)
  {
    face == 0 || face == 3 || face == 4
  }

  /** Down(b, w): one row of w vertices further down when b holds, no further otherwise. */
  function Down(b: bool, w: nat): nat
  {
    if b then w else 0
  }

  /**
   * Cell x of a row of a face, in rows of w vertices: rowStart is the row's
   * first vertex within the face (y * w), faceStart the face's first vertex
   * (f * perFace), and cw tells whether the face is indexed clockwise.
   */
  function CubeSphereQuad(w: nat, rowStart: nat, faceStart: nat, cw: bool, x: nat): seq<nat>
  {
    [x + rowStart + faceStart,
     (x + 1) + (rowStart + Down(cw, w)) + faceStart,
     (x + 1) + (rowStart + Down(!cw, w)) + faceStart,
     x + rowStart + faceStart,
     (x + Bit(!cw)) + (rowStart + w) + faceStart,
     (x + Bit(cw)) + (rowStart + w) + faceStart]
  }

  /** The first n cells of a row. */
  function CubeSphereRow(w: nat, rowStart: nat, faceStart: nat, cw: bool, n: nat): (s: seq<nat>)
    ensures |s| == 6 * n
  {
    if n == 0 then [] else CubeSphereRow(w, rowStart, faceStart, cw, n - 1) + CubeSphereQuad(w, rowStart, faceStart, cw, n - 1)
  }

  /** The first vertex of row y of a grid w vertices wide, or of face f of perFace vertices. */
  function Start(y: nat, w: nat): nat
  {
    y * w
  }

  /** The first n rows of face f. */
  function CubeSphereFace(m: nat, f: nat, perFace: nat, n: nat): seq<nat>
  {
    if n == 0 then [] else
      CubeSphereFace(m, f, perFace, n - 1) + CubeSphereRow(m + 1, Start(n - 1, m + 1), Start(f, perFace), ClockWise(f), m)
  }

  /** The first n faces. */
  function CubeSphereFaces(m: nat, perFace: nat, n: nat): seq<nat>
  {
    if n == 0 then [] else CubeSphereFaces(m, perFace, n - 1) + CubeSphereFace(m, n - 1, perFace, m)
  }

  lemma {:induction false} CubeSphereFaceGrows(m: nat, f: nat, perFace: nat, n: nat, k: nat)
    requires n <= k
    ensures |CubeSphereFace(m, f, perFace, n)| <= |CubeSphereFace(m, f, perFace, k)|
  {
    if n < k {
      CubeSphereFaceGrows(m, f, perFace, n, k - 1);
    }
  }

  lemma {:induction false} CubeSphereFacesGrow(m: nat, perFace: nat, n: nat, k: nat)
    requires n <= k
    ensures |CubeSphereFaces(m, perFace, n)| <= |CubeSphereFaces(m, perFace, k)|
  {
    if n < k {
      CubeSphereFacesGrow(m, perFace, n, k - 1);
    }
  }

  lemma {:induction false} CubeSphereFaceLength(m: nat, f: nat, perFace: nat, n: nat)
    ensures |CubeSphereFace(m, f, perFace, n)| == 6 * m * n
  {
    if n > 0 {
      CubeSphereFaceLength(m, f, perFace, n - 1);
      MulSucc(6 * m, n - 1);
    }
  }

  lemma {:induction false} CubeSphereFacesLength(m: nat, perFace: nat, n: nat)
    ensures |CubeSphereFaces(m, perFace, n)| == 6 * m * m * n
  {
    if n > 0 {
      CubeSphereFacesLength(m, perFace, n - 1);
      CubeSphereFaceLength(m, n - 1, perFace, m);
      MulSucc(6 * m * m, n - 1);
    }
  }

  /** Vertex (x, y) of face f lies below the 6 faces of w * w vertices. */
  lemma FaceVertexBound(x: nat, y: nat, w: nat, f: nat)
    requires x < w && y < w && f < 6
    ensures x + y * w + f * (w * w) < 6 * (w * w)
  {
    GridIndexBound(x, y, w, w);
    MulLeq(f + 1, 6, w * w);
    assert (f + 1) * (w * w) == f * (w * w) + w * w;
  }

  lemma CubeSphereQuadInRange(m: nat, f: nat, x: nat, y: nat)
    requires x < m && y < m && f < 6
    ensures IndicesInRange(CubeSphereQuad(m + 1, Start(y, m + 1), Start(f, (m + 1) * (m + 1)), ClockWise(f), x),
      6 * ((m + 1) * (m + 1)))
  {
    var w := m + 1;
    assert (y + 1) * w == y * w + w;
    FaceVertexBound(x, y, w, f);
    FaceVertexBound(x + 1, y, w, f);
    FaceVertexBound(x + 1, y + 1, w, f);
    FaceVertexBound(x, y + 1, w, f);
  }

  lemma {:induction false} CubeSphereRowInRange(m: nat, f: nat, y: nat, n: nat)
    requires n <= m && y < m && f < 6
    ensures IndicesInRange(CubeSphereRow(m + 1, Start(y, m + 1), Start(f, (m + 1) * (m + 1)), ClockWise(f), n),
      6 * ((m + 1) * (m + 1)))
  {
    if n > 0 {
      var perFace := (m + 1) * (m + 1);
      CubeSphereRowInRange(m, f, y, n - 1);
      CubeSphereQuadInRange(m, f, n - 1, y);
      InRangeAppend(CubeSphereRow(m + 1, Start(y, m + 1), Start(f, perFace), ClockWise(f), n - 1),
        CubeSphereQuad(m + 1, Start(y, m + 1), Start(f, perFace), ClockWise(f), n - 1), 6 * perFace);
    }
  }

  lemma {:induction false} CubeSphereFaceInRange(m: nat, f: nat, n: nat)
    requires n <= m && f < 6
    ensures IndicesInRange(CubeSphereFace(m, f, (m + 1) * (m + 1), n), 6 * ((m + 1) * (m + 1)))
  {
    if n > 0 {
      var perFace := (m + 1) * (m + 1);
      CubeSphereFaceInRange(m, f, n - 1);
      CubeSphereRowInRange(m, f, n - 1, m);
      InRangeAppend(CubeSphereFace(m, f, perFace, n - 1),
        CubeSphereRow(m + 1, Start(n - 1, m + 1), Start(f, perFace), ClockWise(f), m), 6 * perFace);
    }
  }

  lemma {:induction false} CubeSphereFacesInRange(m: nat, n: nat)
    requires n <= 6
    ensures IndicesInRange(CubeSphereFaces(m, (m + 1) * (m + 1), n), 6 * ((m + 1) * (m + 1)))
  {
    if n > 0 {
      var perFace := (m + 1) * (m + 1);
      CubeSphereFacesInRange(m, n - 1);
      CubeSphereFaceInRange(m, n - 1, m);
      InRangeAppend(CubeSphereFaces(m, perFace, n - 1), CubeSphereFace(m, n - 1, perFace, m), 6 * perFace);
    }
  }

  /** The innermost index loop of BuildCubeSphere: the m cells of row y of face f. */
  method WriteCubeSphereRow(a: array<nat>, at: nat, m: nat, f: nat, perFace: nat, cw: bool, y: nat)
    requires at + 6 * m <= a.Length
    modifies a
    ensures a[..at + 6 * m] == old(a[..at]) + CubeSphereRow(m + 1, Start(y, m + 1), Start(f, perFace), cw, m)
  {
    var rowStart := y * (m + 1);
    var faceStart := f * perFace;
    var currentIndex := at;
    var x := 0;
    while x < m
      invariant x <= m && currentIndex == at + 6 * x
      invariant a[..currentIndex] == old(a[..at]) + CubeSphereRow(m + 1, rowStart, faceStart, cw, x)
    {
      Put6(a, currentIndex, CubeSphereQuad(m + 1, rowStart, faceStart, cw, x));
      x, currentIndex := x + 1, currentIndex + 6;
    }
  }

  /** One pass of the row loop of face f: appends row y after the rows before it. */
  method AppendCubeSphereRow(a: array<nat>, ghost prefix: seq<nat>, at: nat, m: nat, f: nat, perFace: nat, cw: bool, y: nat)
    returns (next: nat)
    requires cw == ClockWise(f)
    requires |prefix| + |CubeSphereFace(m, f, perFace, y + 1)| <= a.Length
    requires at <= a.Length && a[..at] == prefix + CubeSphereFace(m, f, perFace, y)
    modifies a
    ensures next == |prefix| + |CubeSphereFace(m, f, perFace, y + 1)|
    ensures a[..next] == prefix + CubeSphereFace(m, f, perFace, y + 1)
  {
    WriteCubeSphereRow(a, at, m, f, perFace, cw, y);
    next := at + 6 * m;
  }

  /** The index loops of face f of BuildCubeSphere. */
  method WriteCubeSphereFace(a: array<nat>, at: nat, m: nat, f: nat, perFace: nat)
    requires at + |CubeSphereFace(m, f, perFace, m)| <= a.Length
    modifies a
    ensures a[..at + |CubeSphereFace(m, f, perFace, m)|] == old(a[..at]) + CubeSphereFace(m, f, perFace, m)
  {
    ghost var prefix := a[..at];
    var clockWiseIndexing := ClockWise(f);
    var currentIndex := at;
    for y := 0 to m
      invariant currentIndex == at + |CubeSphereFace(m, f, perFace, y)| <= a.Length
      invariant a[..currentIndex] == prefix + CubeSphereFace(m, f, perFace, y)
    {
      CubeSphereFaceGrows(m, f, perFace, y + 1, m);
      currentIndex := AppendCubeSphereRow(a, prefix, currentIndex, m, f, perFace, clockWiseIndexing, y);
    }
  }

  /** The face loop of BuildCubeSphere. */
  method WriteCubeSphereFaces(a: array<nat>, m: nat, perFace: nat)
    requires |CubeSphereFaces(m, perFace, 6)| <= a.Length
    modifies a
    ensures a[..|CubeSphereFaces(m, perFace, 6)|] == CubeSphereFaces(m, perFace, 6)
  {
    var currentIndex := 0;
    var f := 0;
    while f < 6
      invariant f <= 6 && currentIndex == |CubeSphereFaces(m, perFace, f)|
      invariant currentIndex <= a.Length
      invariant a[..currentIndex] == CubeSphereFaces(m, perFace, f)
    {
      CubeSphereFacesGrow(m, perFace, f + 1, 6);
      WriteCubeSphereFace(a, currentIndex, m, f, perFace);
      currentIndex := currentIndex + |CubeSphereFace(m, f, perFace, m)|;
      f := f + 1;
    }
  }

  /**
   * BuildCubeSphere: a resolution of 0 is raised to 1; six faces of
   * (m + 1) * (m + 1) vertices and 36 * m * m indices, every one naming a
   * vertex.
   */
  method BuildCubeSphere(meshResolution: nat) returns (data: MeshData)
    ensures var m := Clamped(meshResolution, 1);
      data.vertexCount == 6 * (m + 1) * (m + 1) && |data.indices| == 6 * 6 * m * m
      && data.indices == CubeSphereFaces(m, (m + 1) * (m + 1), 6)
    ensures data.name == "CubeSphere" && IndicesInRange(data.indices, data.vertexCount)
  {
    var m := meshResolution;
    if m == 0 {
      m := 1;
    }
    assert m == Clamped(meshResolution, 1);
    var vertexCount := 6 * (m + 1) * (m + 1);
    var indexCount := 6 * 6 * m * m;
    var perFace := vertexCount / 6;
    CubeSphereCounts(m);
    DivModUnique(vertexCount, 6, (m + 1) * (m + 1), 0);
    var a := new nat[indexCount](_ => 0);
    WriteCubeSphereFaces(a, m, perFace);
    var indices := a[..];
    assert indices == CubeSphereFaces(m, perFace, 6) by {
      assert a[..] == a[..indexCount];
    }
    CubeSphereFacesInRange(m, 6);
    data := MeshData("CubeSphere", vertexCount, indices);
  }

  lemma CubeSphereCounts(m: nat)
    ensures 6 * (m + 1) * (m + 1) == 6 * ((m + 1) * (m + 1))
    ensures |CubeSphereFaces(m, (m + 1) * (m + 1), 6)| == 6 * 6 * m * m
  {
    CubeSphereFacesLength(m, (m + 1) * (m + 1), 6);
    SixFaces(m + 1, m);
  }

  lemma SixFaces(w: nat, m: nat)
    ensures 6 * w * w == 6 * (w * w) && 6 * m * m * 6 == 6 * 6 * m * m
  {
  }

  // ---------------------------------------------------------------------------
  // Cylinder
  // ---------------------------------------------------------------------------

  /** Cell i of stack h: vertices i and i + 1 of ring h and of ring h + 1, rings being r + 1 long. */
  function CylinderQuad(r: nat, h: nat, i: nat): seq<nat>
  {
    var w := r + 1;
    [h * w + i, h * w + i + 1, h * w + (i + 1) + w, h * w + i, h * w + (i + 1) + w, h * w + i + w]
  }

  /** The first n cells of stack h. */
  function CylinderStack(r: nat, h: nat, n: nat): (s: seq<nat>)
    ensures |s| == 6 * n
  {
    if n == 0 then [] else CylinderStack(r, h, n - 1) + CylinderQuad(r, h, n - 1)
  }

  /** The first n stacks. */
  function CylinderStacks(r: nat, n: nat): seq<nat>
  {
    if n == 0 then [] else CylinderStacks(r, n - 1) + CylinderStack(r, n - 1, r)
  }

  lemma {:induction false} CylinderStacksGrow(r: nat, n: nat, k: nat)
    requires n <= k
    ensures |CylinderStacks(r, n)| <= |CylinderStacks(r, k)|
  {
    if n < k {
      CylinderStacksGrow(r, n, k - 1);
    }
  }

  lemma {:induction false} CylinderStacksLength(r: nat, n: nat)
    ensures |CylinderStacks(r, n)| == 6 * r * n
  {
    if n > 0 {
      CylinderStacksLength(r, n - 1);
      MulSucc(6 * r, n - 1);
    }
  }

  lemma CylinderQuadInRange(r: nat, stackCount: nat, h: nat, i: nat)
    requires i < r && h < stackCount
    ensures IndicesInRange(CylinderQuad(r, h, i), (stackCount + 1) * (r + 1))
  {
    var w := r + 1;
    assert (h + 1) * w == h * w + w;
    GridIndexBound(i, h, w, stackCount + 1);
    GridIndexBound(i + 1, h, w, stackCount + 1);
    GridIndexBound(i + 1, h + 1, w, stackCount + 1);
    GridIndexBound(i, h + 1, w, stackCount + 1);
  }

  lemma {:induction false} CylinderStackInRange(r: nat, stackCount: nat, h: nat, n: nat)
    requires n <= r && h < stackCount
    ensures IndicesInRange(CylinderStack(r, h, n), (stackCount + 1) * (r + 1))
  {
    if n > 0 {
      CylinderStackInRange(r, stackCount, h, n - 1);
      CylinderQuadInRange(r, stackCount, h, n - 1);
      InRangeAppend(CylinderStack(r, h, n - 1), CylinderQuad(r, h, n - 1), (stackCount + 1) * (r + 1));
    }
  }

  lemma {:induction false} CylinderStacksInRange(r: nat, stackCount: nat, n: nat)
    requires n <= stackCount
    ensures IndicesInRange(CylinderStacks(r, n), (stackCount + 1) * (r + 1))
  {
    if n > 0 {
      CylinderStacksInRange(r, stackCount, n - 1);
      CylinderStackInRange(r, stackCount, n - 1, r);
      InRangeAppend(CylinderStacks(r, n - 1), CylinderStack(r, n - 1, r), (stackCount + 1) * (r + 1));
    }
  }

  lemma CylinderCounts(r: nat, stackCount: nat)
    ensures |CylinderStacks(r, stackCount)| == 2 * 3 * r * stackCount
  {
    CylinderStacksLength(r, stackCount);
  }

  /** The inner index loop of BuildCylinder: the r cells of stack h. */
  method WriteCylinderStack(a: array<nat>, at: nat, r: nat, h: nat)
    requires at + 6 * r <= a.Length
    modifies a
    ensures a[..at + 6 * r] == old(a[..at]) + CylinderStack(r, h, r)
  {
    var currentIndex := at;
    var i := 0;
    while i < r
      invariant i <= r && currentIndex == at + 6 * i
      invariant a[..currentIndex] == old(a[..at]) + CylinderStack(r, h, i)
    {
      Put6(a, currentIndex, CylinderQuad(r, h, i));
      i, currentIndex := i + 1, currentIndex + 6;
    }
  }

  /** The outer index loop of BuildCylinder: all stacks. */
  method WriteCylinderStacks(a: array<nat>, r: nat, stackCount: nat)
    requires |CylinderStacks(r, stackCount)| <= a.Length
    modifies a
    ensures a[..|CylinderStacks(r, stackCount)|] == CylinderStacks(r, stackCount)
  {
    var currentIndex := 0;
    var h := 0;
    while h < stackCount
      invariant h <= stackCount && currentIndex == |CylinderStacks(r, h)|
      invariant currentIndex <= a.Length
      invariant a[..currentIndex] == CylinderStacks(r, h)
    {
      CylinderStacksGrow(r, h + 1, stackCount);
      WriteCylinderStack(a, currentIndex, r, h);
      h, currentIndex := h + 1, currentIndex + 6 * r;
    }
  }

  /**
   * BuildCylinder: caps are not supported (the caller must pass false); the
   * resolution is raised to at least 3; stackCount + 1 rings of r + 1
   * vertices and 6 * r * stackCount indices, every one naming a vertex.
   */
  method BuildCylinder(resolution: nat, stackCount: nat, capMesh: bool) returns (data: MeshData)
    requires !capMesh
    ensures var r := Clamped(resolution, 3);
      data.vertexCount == (stackCount + 1) * (r + 1) && |data.indices| == 2 * 3 * r * stackCount
      && data.indices == CylinderStacks(r, stackCount)
    ensures data.name == "Cylinder" && IndicesInRange(data.indices, data.vertexCount)
  {
    var r := resolution;
    if r < 3 {
      r := 3;
    }
    assert r == Clamped(resolution, 3);
    var vertexCount := (stackCount + 1) * (r + 1);
    var indexCount := 2 * 3 * r * stackCount;
    CylinderCounts(r, stackCount);
    var a := new nat[indexCount](_ => 0);
    WriteCylinderStacks(a, r, stackCount);
    var indices := a[..];
    assert indices == CylinderStacks(r, stackCount) by {
      assert a[..] == a[..indexCount];
    }
    CylinderStacksInRange(r, stackCount, stackCount);
    data := MeshData("Cylinder", vertexCount, indices);
  }

  // ---------------------------------------------------------------------------
  // Sphere
  // ---------------------------------------------------------------------------

  /** Vertex 0 is the top, the last vertex the bottom, and r - 2 discs of r + 1 vertices lie between. */
  function SphereVertexCount(r: nat): nat
    requires r >= 3
  {
    2 + (r - 2) * (r + 1)
  }

  /** Top triangle i: vertices i + 1 and i + 2 of the first disc with the top vertex. */
  function SphereTopTriangle(i: nat): seq<nat>
  {
    [i + 1, i + 2, 0]
  }

  /** Cell i between disc j - 1 and disc j. */
  function SphereDiscQuad(r: nat, j: nat, i: nat): seq<nat>
    requires j >= 1
  {
    [i + 2 + (j - 1) * (r + 1), i + 1 + (j - 1) * (r + 1), i + 1 + j * (r + 1),
     i + 2 + (j - 1) * (r + 1), i + 1 + j * (r + 1), i + 2 + j * (r + 1)]
  }

  /** Bottom triangle i: vertices i + 1 and i + 2 of the last disc with the bottom vertex. */
  function SphereBottomTriangle(r: nat, i: nat): seq<nat>
    requires r >= 3
  {
    [i + 1 + (r - 3) * (r + 1), SphereVertexCount(r) - 1, i + 2 + (r - 3) * (r + 1)]
  }

  /** The first n triangles of the top cone. */
  function SphereTop(n: nat): (s: seq<nat>)
    ensures |s| == 3 * n
  {
    if n == 0 then [] else SphereTop(n - 1) + SphereTopTriangle(n - 1)
  }

  /** The first n cells between disc j - 1 and disc j. */
  function SphereDiscRow(r: nat, j: nat, n: nat): (s: seq<nat>)
    requires j >= 1
    ensures |s| == 6 * n
  {
    if n == 0 then [] else SphereDiscRow(r, j, n - 1) + SphereDiscQuad(r, j, n - 1)
  }

  /** The rows j = 1 to n. */
  function SphereDiscs(r: nat, n: nat): seq<nat>
  {
    if n == 0 then [] else SphereDiscs(r, n - 1) + SphereDiscRow(r, n, r)
  }

  /** The first n triangles of the bottom cone. */
  function SphereBottom(r: nat, n: nat): (s: seq<nat>)
    requires r >= 3
    ensures |s| == 3 * n
  {
    if n == 0 then [] else SphereBottom(r, n - 1) + SphereBottomTriangle(r, n - 1)
  }

  /** The sphere's index list: top cone, the quads between discs, bottom cone. */
  function SphereIndices(r: nat): seq<nat>
    requires r >= 3
  {
    SphereTop(r) + SphereDiscs(r, r - 3) + SphereBottom(r, r)
  }

  lemma {:induction false} SphereDiscsGrow(r: nat, n: nat, k: nat)
    requires n <= k
    ensures |SphereDiscs(r, n)| <= |SphereDiscs(r, k)|
  {
    if n < k {
      SphereDiscsGrow(r, n, k - 1);
    }
  }

  lemma {:induction false} SphereDiscsLength(r: nat, n: nat)
    ensures |SphereDiscs(r, n)| == 6 * r * n
  {
    if n > 0 {
      SphereDiscsLength(r, n - 1);
      MulSucc(6 * r, n - 1);
    }
  }

  lemma SphereCounts(r: nat)
    requires r >= 3
    ensures |SphereIndices(r)| == 6 * r + 6 * (r - 3) * r
  {
    SphereDiscsLength(r, r - 3);
    assert 6 * (r - 3) * r == 6 * r * (r - 3);
  }

  /** Vertex x of disc y, counted after the top vertex, lies before the bottom vertex. */
  lemma SphereVertexBound(x: nat, y: nat, r: nat)
    requires r >= 3 && x < r + 1 && y < r - 2
    ensures x + y * (r + 1) + 1 < SphereVertexCount(r) - 1
  {
    GridIndexBound(x, y, r + 1, r - 2);
  }

  lemma {:induction false} SphereTopInRange(r: nat, n: nat)
    requires r >= 3 && n <= r
    ensures IndicesInRange(SphereTop(n), SphereVertexCount(r))
  {
    if n > 0 {
      SphereTopInRange(r, n - 1);
      SphereVertexBound(n, 0, r);
      InRangeAppend(SphereTop(n - 1), SphereTopTriangle(n - 1), SphereVertexCount(r));
    }
  }

  lemma SphereDiscQuadInRange(r: nat, j: nat, i: nat)
    requires r >= 3 && 1 <= j < r - 2 && i < r
    ensures IndicesInRange(SphereDiscQuad(r, j, i), SphereVertexCount(r))
  {
    SphereVertexBound(i + 1, j - 1, r);
    SphereVertexBound(i, j - 1, r);
    SphereVertexBound(i, j, r);
    SphereVertexBound(i + 1, j, r);
  }

  lemma {:induction false} SphereDiscRowInRange(r: nat, j: nat, n: nat)
    requires r >= 3 && 1 <= j < r - 2 && n <= r
    ensures IndicesInRange(SphereDiscRow(r, j, n), SphereVertexCount(r))
  {
    if n > 0 {
      SphereDiscRowInRange(r, j, n - 1);
      SphereDiscQuadInRange(r, j, n - 1);
      InRangeAppend(SphereDiscRow(r, j, n - 1), SphereDiscQuad(r, j, n - 1), SphereVertexCount(r));
    }
  }

  lemma {:induction false} SphereDiscsInRange(r: nat, n: nat)
    requires r >= 3 && n <= r - 3
    ensures IndicesInRange(SphereDiscs(r, n), SphereVertexCount(r))
  {
    if n > 0 {
      SphereDiscsInRange(r, n - 1);
      SphereDiscRowInRange(r, n, r);
      InRangeAppend(SphereDiscs(r, n - 1), SphereDiscRow(r, n, r), SphereVertexCount(r));
    }
  }

  lemma {:induction false} SphereBottomInRange(r: nat, n: nat)
    requires r >= 3 && n <= r
    ensures IndicesInRange(SphereBottom(r, n), SphereVertexCount(r))
  {
    if n > 0 {
      SphereBottomInRange(r, n - 1);
      SphereVertexBound(n - 1, r - 3, r);
      SphereVertexBound(n, r - 3, r);
      InRangeAppend(SphereBottom(r, n - 1), SphereBottomTriangle(r, n - 1), SphereVertexCount(r));
    }
  }

  lemma SphereIndicesInRange(r: nat)
    requires r >= 3
    ensures IndicesInRange(SphereIndices(r), SphereVertexCount(r))
  {
    SphereTopInRange(r, r);
    SphereDiscsInRange(r, r - 3);
    SphereBottomInRange(r, r);
    InRangeAppend(SphereTop(r), SphereDiscs(r, r - 3), SphereVertexCount(r));
    InRangeAppend(SphereTop(r) + SphereDiscs(r, r - 3), SphereBottom(r, r), SphereVertexCount(r));
  }

  /** The top cone loop of BuildSphere. */
  method WriteSphereTop(a: array<nat>, r: nat)
    requires 3 * r <= a.Length
    modifies a
    ensures a[..3 * r] == SphereTop(r)
  {
    var currentIndex := 0;
    var i := 0;
    while i < r
      invariant i <= r && currentIndex == 3 * i
      invariant a[..currentIndex] == SphereTop(i)
    {
      Put3(a, currentIndex, SphereTopTriangle(i));
      i, currentIndex := i + 1, currentIndex + 3;
    }
  }

  /** The inner disc loop of BuildSphere: the r cells between disc j - 1 and disc j. */
  method WriteSphereDiscRow(a: array<nat>, at: nat, r: nat, j: nat)
    requires j >= 1 && at + 6 * r <= a.Length
    modifies a
    ensures a[..at + 6 * r] == old(a[..at]) + SphereDiscRow(r, j, r)
  {
    var currentIndex := at;
    var i := 0;
    while i < r
      invariant i <= r && currentIndex == at + 6 * i
      invariant a[..currentIndex] == old(a[..at]) + SphereDiscRow(r, j, i)
    {
      Put6(a, currentIndex, SphereDiscQuad(r, j, i));
      i, currentIndex := i + 1, currentIndex + 6;
    }
  }

  /** One pass of the outer disc loop: appends row j after the rows before it. */
  method AppendSphereDiscRow(a: array<nat>, ghost prefix: seq<nat>, at: nat, r: nat, j: nat) returns (next: nat)
    requires j >= 1 && |prefix| + |SphereDiscs(r, j)| <= a.Length
    requires at <= a.Length && a[..at] == prefix + SphereDiscs(r, j - 1)
    modifies a
    ensures next == |prefix| + |SphereDiscs(r, j)| && a[..next] == prefix + SphereDiscs(r, j)
  {
    WriteSphereDiscRow(a, at, r, j);
    next := at + 6 * r;
  }

  /** The disc loops of BuildSphere: rows j = 1 to r - 3, written from position at on. */
  method WriteSphereDiscs(a: array<nat>, at: nat, r: nat)
    requires r >= 3 && at + |SphereDiscs(r, r - 3)| <= a.Length
    modifies a
    ensures a[..at + |SphereDiscs(r, r - 3)|] == old(a[..at]) + SphereDiscs(r, r - 3)
  {
    ghost var prefix := a[..at];
    var currentIndex := at;
    for j := 1 to r - 2
      invariant currentIndex == at + |SphereDiscs(r, j - 1)| <= a.Length
      invariant a[..currentIndex] == prefix + SphereDiscs(r, j - 1)
    {
      SphereDiscsGrow(r, j, r - 3);
      currentIndex := AppendSphereDiscRow(a, prefix, currentIndex, r, j);
    }
  }

  /** The bottom cone loop of BuildSphere, written from position at on. */
  method WriteSphereBottom(a: array<nat>, at: nat, r: nat)
    requires r >= 3 && at + 3 * r <= a.Length
    modifies a
    ensures a[..at + 3 * r] == old(a[..at]) + SphereBottom(r, r)
  {
    var currentIndex := at;
    var i := 0;
    while i < r
      invariant i <= r && currentIndex == at + 3 * i
      invariant a[..currentIndex] == old(a[..at]) + SphereBottom(r, i)
    {
      Put3(a, currentIndex, SphereBottomTriangle(r, i));
      i, currentIndex := i + 1, currentIndex + 3;
    }
  }

  /**
   * BuildSphere: the resolution is raised to at least 3; a top and a bottom
   * vertex with r - 2 discs of r + 1 vertices between, and
   * 6 * r + 6 * (r - 3) * r indices, every one naming a vertex.
   */
  method BuildSphere(resolution: nat) returns (data: MeshData)
    ensures var r := Clamped(resolution, 3);
      data.vertexCount == 2 + (r - 2) * (r + 1) && |data.indices| == 6 * r + 6 * (r - 3) * r
      && data.indices == SphereIndices(r)
    ensures data.name == "Sphere" && IndicesInRange(data.indices, data.vertexCount)
  {
    var r := resolution;
    if r < 3 {
      r := 3;
    }
    assert r == Clamped(resolution, 3);
    var vertexCount := 2 + (r - 2) * (r + 1);
    var indexCount := 6 * r + 6 * (r - 3) * r;
    SphereCounts(r);
    var a := new nat[indexCount](_ => 0);
    WriteSphereTop(a, r);
    WriteSphereDiscs(a, 3 * r, r);
    var currentIndex := 3 * r + |SphereDiscs(r, r - 3)|;
    ghost var topAndDiscs := a[..currentIndex];
    WriteSphereBottom(a, currentIndex, r);
    var indices := a[..];
    assert indices == SphereIndices(r) by {
      assert a[..] == topAndDiscs + SphereBottom(r, r);
    }
    SphereIndicesInRange(r);
    data := MeshData("Sphere", vertexCount, indices);
  }

  // ---------------------------------------------------------------------------
  // Terrain
  // ---------------------------------------------------------------------------

  /** The cell whose first vertex is idx, in rows of r + 1 vertices, as two triangles. */
  function TerrainQuad(r: nat, idx: nat): seq<nat>
  {
    [idx, idx + 1 + (r + 1), idx + 1, idx, idx + 0 + (r + 1), idx + 1 + (r + 1)]
  }

  /** The first n cells of row z. */
  function TerrainRow(r: nat, z: nat, n: nat): (s: seq<nat>)
    ensures |s| == 6 * n
  {
    if n == 0 then [] else TerrainRow(r, z, n - 1) + TerrainQuad(r, (n - 1) + Start(z, r + 1))
  }

  /** The first z rows. */
  function TerrainRows(r: nat, z: nat): seq<nat>
  {
    if z == 0 then [] else TerrainRows(r, z - 1) + TerrainRow(r, z - 1, r)
  }

  lemma {:induction false} TerrainRowsGrow(r: nat, n: nat, k: nat)
    requires n <= k
    ensures |TerrainRows(r, n)| <= |TerrainRows(r, k)|
  {
    if n < k {
      TerrainRowsGrow(r, n, k - 1);
    }
  }

  lemma {:induction false} TerrainRowsLength(r: nat, n: nat)
    ensures |TerrainRows(r, n)| == 6 * r * n
  {
    if n > 0 {
      TerrainRowsLength(r, n - 1);
      MulSucc(6 * r, n - 1);
    }
  }

  lemma TerrainQuadInRange(r: nat, x: nat, z: nat)
    requires x < r && z < r
    ensures IndicesInRange(TerrainQuad(r, x + Start(z, r + 1)), (r + 1) * (r + 1))
  {
    var w := r + 1;
    assert (x + z * w) + 1 + w == (x + 1) + (z + 1) * w;
    assert (x + z * w) + 0 + w == x + (z + 1) * w;
    GridIndexBound(x + 1, z + 1, w, w);
    GridIndexBound(x, z + 1, w, w);
  }

  lemma {:induction false} TerrainRowInRange(r: nat, z: nat, n: nat)
    requires n <= r && z < r
    ensures IndicesInRange(TerrainRow(r, z, n), (r + 1) * (r + 1))
  {
    if n > 0 {
      TerrainRowInRange(r, z, n - 1);
      TerrainQuadInRange(r, n - 1, z);
      InRangeAppend(TerrainRow(r, z, n - 1), TerrainQuad(r, (n - 1) + Start(z, r + 1)), (r + 1) * (r + 1));
    }
  }

  lemma {:induction false} TerrainRowsInRange(r: nat, z: nat)
    requires z <= r
    ensures IndicesInRange(TerrainRows(r, z), (r + 1) * (r + 1))
  {
    if z > 0 {
      TerrainRowsInRange(r, z - 1);
      TerrainRowInRange(r, z - 1, r);
      InRangeAppend(TerrainRows(r, z - 1), TerrainRow(r, z - 1, r), (r + 1) * (r + 1));
    }
  }

  /** The inner loop of BuildTerrain: the r cells of row z. */
  method WriteTerrainRow(a: array<nat>, at: nat, r: nat, z: nat)
    requires at + 6 * r <= a.Length
    modifies a
    ensures a[..at + 6 * r] == old(a[..at]) + TerrainRow(r, z, r)
  {
    var rowStart := z * (r + 1);
    var currentIndex := at;
    var x := 0;
    while x < r
      invariant x <= r && currentIndex == at + 6 * x
      invariant a[..currentIndex] == old(a[..at]) + TerrainRow(r, z, x)
    {
      Put6(a, currentIndex, TerrainQuad(r, x + rowStart));
      x, currentIndex := x + 1, currentIndex + 6;
    }
  }

  /** The outer loop of BuildTerrain: all r rows. */
  method WriteTerrainRows(a: array<nat>, r: nat)
    requires |TerrainRows(r, r)| <= a.Length
    modifies a
    ensures a[..|TerrainRows(r, r)|] == TerrainRows(r, r)
  {
    var currentIndex := 0;
    var z := 0;
    while z < r
      invariant z <= r && currentIndex == |TerrainRows(r, z)|
      invariant currentIndex <= a.Length
      invariant a[..currentIndex] == TerrainRows(r, z)
    {
      TerrainRowsGrow(r, z + 1, r);
      WriteTerrainRow(a, currentIndex, r, z);
      z, currentIndex := z + 1, currentIndex + 6 * r;
    }
  }

  /**
   * BuildTerrain: the resolution is raised to at least 1; an (r + 1) by
   * (r + 1) grid of vertices and 6 * r * r indices, two triangles per cell,
   * every one naming a vertex.
   */
  method BuildTerrain(resolution: nat) returns (data: MeshData)
    ensures var r := Clamped(resolution, 1);
      data.vertexCount == (r + 1) * (r + 1) && |data.indices| == 6 * r * r
      && data.indices == TerrainRows(r, r)
    ensures data.name == "Terrain" && IndicesInRange(data.indices, data.vertexCount)
  {
    var r := resolution;
    if r < 1 {
      r := 1;
    }
    assert r == Clamped(resolution, 1);
    var vertexCount := (r + 1) * (r + 1);
    var indexCount := 6 * r * r;
    TerrainRowsLength(r, r);
    var a := new nat[indexCount](_ => 0);
    WriteTerrainRows(a, r);
    var indices := a[..];
    assert indices == TerrainRows(r, r) by {
      assert a[..] == a[..indexCount];
    }
    TerrainRowsInRange(r, r);
    data := MeshData("Terrain", vertexCount, indices);
  }

  // ---------------------------------------------------------------------------
  // GenerateBuffersAndAccelerationStructures: the mesh tables
  // ---------------------------------------------------------------------------

  /** The resolution every generator that takes one is left at (the default argument, 20u). */
  const GeneratedResolution: nat := 20

  /**
   * The mesh generated for a tag at resolution r: the six names the scene
   * builder knows, each built with its default arguments otherwise (a capped
   * cone, one cylinder stack); any other name builds nothing.
   */
  function MeshFor(tag: string, r: nat): Option<MeshData>
  {
    if tag == "Cone" then
      Some(MeshData("Cone", Clamped(r, 3) + 2 + Bit(true), ConeIndices(Clamped(r, 3), true)))
    else if tag == "Cube" then
      Some(CubeMesh())
    else if tag == "CubeSphere" then
      var m := Clamped(r, 1);
      Some(MeshData("CubeSphere", 6 * (m + 1) * (m + 1), CubeSphereFaces(m, (m + 1) * (m + 1), 6)))
    else if tag == "Cylinder" then
      Some(MeshData("Cylinder", (1 + 1) * (Clamped(r, 3) + 1), CylinderStacks(Clamped(r, 3), 1)))
    else if tag == "Sphere" then
      var c := Clamped(r, 3);
      Some(MeshData("Sphere", 2 + (c - 2) * (c + 1), SphereIndices(c)))
    else if tag == "Terrain" then
      var t := Clamped(r, 1);
      Some(MeshData("Terrain", (t + 1) * (t + 1), TerrainRows(t, t)))
    else
      None
  }

  /** The branch of the generation loop that builds the mesh for one tag. */
  method BuildMesh(tag: string, r: nat) returns (data: Option<MeshData>)
    ensures data == MeshFor(tag, r)
    ensures data.Some? ==> data.value.name == tag && IndicesInRange(data.value.indices, data.value.vertexCount)
  {
    if tag == "Cone" {
      var d := BuildCone(r, true);
      data := Some(d);
    } else if tag == "Cube" {
      CubeFacesAreLocal();
      data := Some(CubeMesh());
    } else if tag == "CubeSphere" {
      var d := BuildCubeSphere(r);
      data := Some(d);
    } else if tag == "Cylinder" {
      var d := BuildCylinder(r, 1, false);
      data := Some(d);
    } else if tag == "Sphere" {
      var d := BuildSphere(r);
      data := Some(d);
    } else if tag == "Terrain" {
      var d := BuildTerrain(r);
      data := Some(d);
    } else {
      data := None;
    }
  }

  /** Every generated mesh names only its own vertices. */
  lemma MeshForInRange(tag: string, r: nat)
    requires MeshFor(tag, r).Some?
    ensures IndicesInRange(MeshFor(tag, r).value.indices, MeshFor(tag, r).value.vertexCount)
  {
    if tag == "Cone" {
      var c := Clamped(r, 3);
      ConeSideInRange(c, c);
      ConeCapInRange(c, c);
      InRangeAppend(ConeSide(c, c), ConeCap(c, c), c + 3);
    } else if tag == "Cube" {
      CubeFacesAreLocal();
    } else if tag == "CubeSphere" {
      var m := Clamped(r, 1);
      CubeSphereFacesInRange(m, 6);
      CubeSphereCounts(m);
    } else if tag == "Cylinder" {
      CylinderStacksInRange(Clamped(r, 3), 1, 1);
    } else if tag == "Sphere" {
      SphereIndicesInRange(Clamped(r, 3));
    } else if tag == "Terrain" {
      TerrainRowsInRange(Clamped(r, 1), Clamped(r, 1));
    }
  }

  // ---------------------------------------------------------------------------
  // The shared buffers and the per-mesh tables
  // ---------------------------------------------------------------------------

  /** The meshes the generation loop builds, one per tag: None for a tag it skips. */
  function Meshes(tags: seq<string>, r: nat): (ms: seq<Option<MeshData>>)
    ensures |ms| == |tags|
  {
    seq(|tags|, k requires 0 <= k < |tags| => MeshFor(tags[k], r))
  }

  /** What one built mesh adds to the shared vertex buffer. */
  function VerticesOf(m: Option<MeshData>): nat
  {
    if m.Some? then m.value.vertexCount else 0
  }

  /** What one built mesh adds to the shared index buffer. */
  function IndicesOf(m: Option<MeshData>): seq<nat>
  {
    if m.Some? then m.value.indices else []
  }

  /** The number of vertices the meshes put in the shared vertex buffer. */
  function GeneratedVertexCount(ms: seq<Option<MeshData>>): nat
  {
    if |ms| == 0 then 0 else GeneratedVertexCount(ms[..|ms| - 1]) + VerticesOf(ms[|ms| - 1])
  }

  /** The shared index buffer: the index lists of the meshes, one after another. */
  function GeneratedIndices(ms: seq<Option<MeshData>>): seq<nat>
  {
    if |ms| == 0 then [] else GeneratedIndices(ms[..|ms| - 1]) + IndicesOf(ms[|ms| - 1])
  }

  /** std::vector::resize: the first n entries, padded with zeros. */
  function Resized(s: seq<nat>, n: nat): (r: seq<nat>)
    ensures |r| == n && forall k :: 0 <= k < n ==> r[k] == (if k < |s| then s[k] else 0)
  {
    if n <= |s| then s[..n] else s + seq(n - |s|, _ => 0)
  }

  /** One more mesh appends its indices and vertices, if it was built, to both buffers. */
  lemma GeneratedStep(ms: seq<Option<MeshData>>, k: nat)
    requires k < |ms|
    ensures GeneratedIndices(ms[..k + 1]) == GeneratedIndices(ms[..k]) + IndicesOf(ms[k])
    ensures GeneratedVertexCount(ms[..k + 1]) == GeneratedVertexCount(ms[..k]) + VerticesOf(ms[k])
  {
    assert ms[..k + 1][..k] == ms[..k];
  }

  /** The buffers of the first k meshes are a prefix of the buffers of all of them. */
  lemma {:induction false} GeneratedPrefix(ms: seq<Option<MeshData>>, k: nat)
    requires k <= |ms|
    ensures GeneratedIndices(ms[..k]) <= GeneratedIndices(ms)
    ensures GeneratedVertexCount(ms[..k]) <= GeneratedVertexCount(ms)
    decreases |ms| - k
  {
    if k < |ms| {
      GeneratedPrefix(ms, k + 1);
      GeneratedStep(ms, k);
    } else {
      assert ms[..k] == ms;
    }
  }

  /**
   * A built mesh k occupies the indices from the running index sum on and
   * the vertices from the running vertex sum on, inside the shared buffers,
   * and every index it draws with (offset by its start vertex) names a vertex
   * of its own range.
   */
  lemma GeneratedMeshInBuffers(ms: seq<Option<MeshData>>, k: nat)
    requires k < |ms| && ms[k].Some? && IndicesInRange(ms[k].value.indices, ms[k].value.vertexCount)
    ensures var mesh := ms[k].value;
      var startIndex := |GeneratedIndices(ms[..k])|;
      var startVertex := GeneratedVertexCount(ms[..k]);
      var buffer := GeneratedIndices(ms);
      startIndex + |mesh.indices| <= |buffer| && buffer[startIndex..startIndex + |mesh.indices|] == mesh.indices
      && startVertex + mesh.vertexCount <= GeneratedVertexCount(ms)
      && forall j :: startIndex <= j < startIndex + |mesh.indices| ==>
           startVertex <= startVertex + buffer[j] < startVertex + mesh.vertexCount
  {
    var mesh := ms[k].value;
    GeneratedStep(ms, k);
    GeneratedPrefix(ms, k + 1);
    SliceInRange(GeneratedIndices(ms), GeneratedIndices(ms[..k]), mesh.indices, mesh.vertexCount);
  }

  /** A list placed after a prefix of a buffer is the buffer's slice there, and keeps its bound. */
  lemma SliceInRange(buffer: seq<nat>, before: seq<nat>, s: seq<nat>, vertexCount: nat)
    requires before + s <= buffer && IndicesInRange(s, vertexCount)
    ensures |before| + |s| <= |buffer| && buffer[|before|..|before| + |s|] == s
    ensures forall j :: |before| <= j < |before| + |s| ==> buffer[j] < vertexCount
  {
    assert forall j :: |before| <= j < |before| + |s| ==> buffer[j] == s[j - |before|];
  }

  /** Different built meshes take disjoint index and vertex ranges, in tag order. */
  lemma GeneratedRangesDisjoint(ms: seq<Option<MeshData>>, k1: nat, k2: nat)
    requires k1 < k2 <= |ms| && ms[k1].Some?
    ensures |GeneratedIndices(ms[..k1])| + |ms[k1].value.indices| <= |GeneratedIndices(ms[..k2])|
    ensures GeneratedVertexCount(ms[..k1]) + ms[k1].value.vertexCount <= GeneratedVertexCount(ms[..k2])
  {
    GeneratedStep(ms, k1);
    GeneratedPrefix(ms[..k2], k1 + 1);
    assert ms[..k2][..k1 + 1] == ms[..k1 + 1];
  }

  /** The three per-mesh tables the scene keeps. */
  datatype Table = StartVertexLocations | StartIndexLocations | IndexCounts

  /**
   * What a built mesh k records in a table: the vertices and the indices of
   * the meshes before it, or its own index count.
   */
  function Recorded(ms: seq<Option<MeshData>>, k: nat, table: Table): nat
    requires k < |ms|
  {
    match table
    case StartVertexLocations => GeneratedVertexCount(ms[..k])
    case StartIndexLocations => |GeneratedIndices(ms[..k])|
    case IndexCounts => |IndicesOf(ms[k])|
  }

  /** A table after the first n passes of the generation loop, starting from the resized table. */
  function TableAfter(ms: seq<Option<MeshData>>, resized: seq<nat>, n: nat, table: Table): (t: seq<nat>)
    requires n <= |ms| == |resized|
    ensures |t| == |resized|
  {
    if n == 0 then resized else
      var t := TableAfter(ms, resized, n - 1, table);
      if ms[n - 1].Some? then t[n - 1 := Recorded(ms, n - 1, table)] else t
  }

  /**
   * After n passes, entry k holds what mesh k recorded when it is one of the
   * first n and was built, and the resized entry otherwise.
   */
  lemma {:induction false} TableAfterEntries(ms: seq<Option<MeshData>>, resized: seq<nat>, n: nat, table: Table)
    requires n <= |ms| == |resized|
    ensures forall k :: 0 <= k < |ms| ==>
      TableAfter(ms, resized, n, table)[k] == if k < n && ms[k].Some? then Recorded(ms, k, table) else resized[k]
  {
    if n > 0 {
      TableAfterEntries(ms, resized, n - 1, table);
    }
  }

  /** One recognised mesh's pass of the generation loop: its three table entries are recorded. */
  method RecordMesh(scene: Scene, ghost ms: seq<Option<MeshData>>,
                    ghost vertexTable: seq<nat>, ghost indexTable: seq<nat>, ghost countTable: seq<nat>,
                    meshID: nat, startVertexLocation: nat, startIndexLocation: nat, indexCount: nat)
    requires meshID < |ms| == |vertexTable| == |indexTable| == |countTable| && ms[meshID].Some?
    requires startVertexLocation == GeneratedVertexCount(ms[..meshID])
    requires startIndexLocation == |GeneratedIndices(ms[..meshID])|
    requires indexCount == |ms[meshID].value.indices|
    requires scene.startVertexLocations == TableAfter(ms, vertexTable, meshID, StartVertexLocations)
    requires scene.startIndexLocations == TableAfter(ms, indexTable, meshID, StartIndexLocations)
    requires scene.indexCounts == TableAfter(ms, countTable, meshID, IndexCounts)
    modifies scene`startVertexLocations, scene`startIndexLocations, scene`indexCounts
    ensures scene.startVertexLocations == TableAfter(ms, vertexTable, meshID + 1, StartVertexLocations)
    ensures scene.startIndexLocations == TableAfter(ms, indexTable, meshID + 1, StartIndexLocations)
    ensures scene.indexCounts == TableAfter(ms, countTable, meshID + 1, IndexCounts)
  {
    scene.startVertexLocations := scene.startVertexLocations[meshID := startVertexLocation];
    scene.startIndexLocations := scene.startIndexLocations[meshID := startIndexLocation];
    scene.indexCounts := scene.indexCounts[meshID := indexCount];
  }

  /**
   * The mesh half of GenerateBuffersAndAccelerationStructures: the three
   * tables are resized to the mesh count; for every mesh whose tag names a
   * generator, the mesh is generated, its vertices and indices are appended
   * to the shared buffers, and its start vertex, start index and index count
   * are recorded; other tags are skipped. The mesh tags and the total
   * instance count are what SceneInstanceData answers.
   */
  method GenerateBuffers(scene: Scene, tags: seq<string>, totalInstanceCount: nat) returns (vertexCount: nat, indices: seq<nat>)
    requires totalInstanceCount > 0
    modifies scene`startVertexLocations, scene`startIndexLocations, scene`indexCounts
    ensures var ms := Meshes(tags, GeneratedResolution);
      vertexCount == GeneratedVertexCount(ms) && indices == GeneratedIndices(ms)
    ensures scene.startVertexLocations == TableAfter(Meshes(tags, GeneratedResolution),
      Resized(old(scene.startVertexLocations), |tags|), |tags|, StartVertexLocations)
    ensures scene.startIndexLocations == TableAfter(Meshes(tags, GeneratedResolution),
      Resized(old(scene.startIndexLocations), |tags|), |tags|, StartIndexLocations)
    ensures scene.indexCounts == TableAfter(Meshes(tags, GeneratedResolution),
      Resized(old(scene.indexCounts), |tags|), |tags|, IndexCounts)
  {
    var resolution := GeneratedResolution;
    ghost var ms := Meshes(tags, resolution);
    scene.startVertexLocations := Resized(scene.startVertexLocations, |tags|);
    scene.startIndexLocations := Resized(scene.startIndexLocations, |tags|);
    scene.indexCounts := Resized(scene.indexCounts, |tags|);
    ghost var vertexTable, indexTable, countTable := scene.startVertexLocations, scene.startIndexLocations, scene.indexCounts;
    var startVertexLocation := 0;
    var startIndexLocation := 0;
    indices := [];
    for meshID := 0 to |tags|
      invariant startVertexLocation == GeneratedVertexCount(ms[..meshID])
      invariant indices == GeneratedIndices(ms[..meshID]) && startIndexLocation == |indices|
      invariant scene.startVertexLocations == TableAfter(ms, vertexTable, meshID, StartVertexLocations)
      invariant scene.startIndexLocations == TableAfter(ms, indexTable, meshID, StartIndexLocations)
      invariant scene.indexCounts == TableAfter(ms, countTable, meshID, IndexCounts)
    {
      GeneratedStep(ms, meshID);
      var data := BuildMesh(tags[meshID], resolution);
      assert data == ms[meshID];
      if data.None? {
        continue;
      }
      RecordMesh(scene, ms, vertexTable, indexTable, countTable, meshID, startVertexLocation, startIndexLocation, |data.value.indices|);
      indices := indices + data.value.indices;
      startVertexLocation := startVertexLocation + data.value.vertexCount;
      startIndexLocation := startIndexLocation + |data.value.indices|;
    }
    assert ms[..|tags|] == ms;
    vertexCount := startVertexLocation;
  }

  // ---------------------------------------------------------------------------
  // The bottom level acceleration structure descriptions of the triangle meshes
  // ---------------------------------------------------------------------------

  /** The geometry fields of a triangle BottomLevelAccelerationStructureDesc. */
  datatype BlasDesc = BlasDesc(startVertexLocation: nat, vertexCount: nat, startIndexLocation: nat, indexCount: nat)

  /** The mesh IDs of the built meshes, in order: the IDs behind vMeshData. */
  function GeneratedMeshIDs(ms: seq<Option<MeshData>>): (ids: seq<nat>)
    ensures |ids| <= |ms|
    ensures forall i :: 0 <= i < |ids| ==> ids[i] < |ms| && ms[ids[i]].Some?
    ensures forall i, j :: 0 <= i < j < |ids| ==> ids[i] < ids[j]
    ensures forall k :: 0 <= k < |ms| && ms[k].Some? ==> k in ids
  {
    if |ms| == 0 then [] else
      GeneratedMeshIDs(ms[..|ms| - 1]) + (if ms[|ms| - 1].Some? then [|ms| - 1] else [])
  }

  /**
   * The BLAS loop as written: the i-th built mesh is described with entry i
   * of the three tables, although the tables are indexed by mesh ID.
   */
  function BlasDescsAsWritten(ms: seq<Option<MeshData>>, vertexTable: seq<nat>, indexTable: seq<nat>, countTable: seq<nat>): (descs: seq<BlasDesc>)
    requires |vertexTable| == |indexTable| == |countTable| == |ms|
    ensures |descs| == |GeneratedMeshIDs(ms)|
  {
    var ids := GeneratedMeshIDs(ms);
    seq(|ids|, i requires 0 <= i < |ids| =>
      BlasDesc(vertexTable[i], ms[ids[i]].value.vertexCount, indexTable[i], countTable[i]))
  }

  /** The BLAS loop with the tables indexed by the mesh ID of the i-th built mesh. */
  function BlasDescs(ms: seq<Option<MeshData>>, vertexTable: seq<nat>, indexTable: seq<nat>, countTable: seq<nat>): (descs: seq<BlasDesc>)
    requires |vertexTable| == |indexTable| == |countTable| == |ms|
    ensures |descs| == |GeneratedMeshIDs(ms)|
  {
    var ids := GeneratedMeshIDs(ms);
    seq(|ids|, i requires 0 <= i < |ids| =>
      BlasDesc(vertexTable[ids[i]], ms[ids[i]].value.vertexCount, indexTable[ids[i]], countTable[ids[i]]))
  }

  /**
   * With the tables GenerateBuffers leaves, each corrected description
   * names exactly its mesh's range of the shared buffers: the start vertex
   * and start index are the running sums before it and the index count is
   * its own.
   */
  lemma BlasDescsDescribeMeshes(ms: seq<Option<MeshData>>, vertexTable: seq<nat>, indexTable: seq<nat>, countTable: seq<nat>)
    requires |vertexTable| == |indexTable| == |countTable| == |ms|
    ensures var ids := GeneratedMeshIDs(ms);
      var descs := BlasDescs(ms,
        TableAfter(ms, vertexTable, |ms|, StartVertexLocations),
        TableAfter(ms, indexTable, |ms|, StartIndexLocations),
        TableAfter(ms, countTable, |ms|, IndexCounts));
      forall i :: 0 <= i < |ids| ==>
        descs[i] == BlasDesc(GeneratedVertexCount(ms[..ids[i]]), ms[ids[i]].value.vertexCount,
          |GeneratedIndices(ms[..ids[i]])|, |ms[ids[i]].value.indices|)
  {
    TableAfterEntries(ms, vertexTable, |ms|, StartVertexLocations);
    TableAfterEntries(ms, indexTable, |ms|, StartIndexLocations);
    TableAfterEntries(ms, countTable, |ms|, IndexCounts);
  }

  /**
   * An unrecognised tag before a cube: the cube's description as written
   * takes the skipped mesh's index count, 0, instead of the cube's 36.
   */
  lemma BlasDescsAsWrittenLosesCube()
    ensures var ms := Meshes(["Foo", "Cube"], GeneratedResolution);
      var counts := TableAfter(ms, Resized([], 2), 2, IndexCounts);
      var vertices := TableAfter(ms, Resized([], 2), 2, StartVertexLocations);
      var starts := TableAfter(ms, Resized([], 2), 2, StartIndexLocations);
      BlasDescsAsWritten(ms, vertices, starts, counts)[0].indexCount == 0
      && BlasDescs(ms, vertices, starts, counts)[0].indexCount == 36
  {
    var ms := Meshes(["Foo", "Cube"], GeneratedResolution);
    assert ms == [None, Some(CubeMesh())];
    assert ms[..1] == [None];
    assert GeneratedMeshIDs(ms) == [1];
    TableAfterEntries(ms, Resized([], 2), 2, IndexCounts);
  }
}
