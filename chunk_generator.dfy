/**
 * Face-culling mesh extraction (scripts/World/ChunkGenerator.cs, a file the
 * repository keeps inside a block comment). Blocks are reduced to their
 * solidity: a resident chunk is a function from local (x, y, z) to "solid",
 * and the window of resident chunks is a 2R x 2R grid of them. Vertex
 * positions (float rotations) are not modelled; each emitted vertex records
 * its face, its corner of the quad and its UV.
 */
module MeshExtraction {
  import opened Globals
  import Chunks

  /** `chunk[x, y, z].Solid` for one resident chunk. */
  type Solidity = (int, int, int) -> bool

  /** Integer block vectors (the `BPos` of the source, always whole here). */
  datatype Int3 = Int3(x: int, y: int, z: int)
  {
    function Plus(o: Int3): Int3 { Int3(x + o.x, y + o.y, z + o.z) }
  }

  predicate InChunk(p: Int3) {
    Chunks.InChunk(p.x, p.y, p.z)
  }

  /**
   * The block direction constants `BlockForward` ... `BlockDown` used by the
   * face tests; their values follow from the neighbour-chunk offsets and the
   * edge remapping in `AdjacentSolid`.
   */
  function BlockVector(d: WorldDirection): Int3
  {
    match d
    case Forward => Int3(0, 0, 1)
    case Backward => Int3(0, 0, -1)
    case Left => Int3(1, 0, 0)
    case Right => Int3(-1, 0, 0)
    case Up => Int3(0, 1, 0)
    case Down => Int3(0, -1, 0)
  }

  /** The block direction constants are the same vectors as `ToVector`. */
  lemma BlockVectorIsToVector(d: WorldDirection)
    ensures ToVector(d) == Vector3(BlockVector(d).x as real, BlockVector(d).y as real, BlockVector(d).z as real)
  {
    ToVectorValues(d);
  }

  /** The arguments of `GenerateSurface`: the chunk window and the grid index of the chunk to mesh. */
  datatype Target = Target(chunks: seq<seq<Solidity>>, renderDistance: nat, ci: int, cj: int)
  {
    /** Grid index (i, j) is inside the window `[0, 2R) x [0, 2R)`. */
    predicate InWindow(i: int, j: int) {
      0 <= i < 2 * renderDistance && 0 <= j < 2 * renderDistance
    }

    /** The window is 2R x 2R (as GameWorld allocates it) and the target chunk is in it. */
    predicate Valid() {
      |chunks| == 2 * renderDistance &&
      (forall i :: 0 <= i < |chunks| ==> |chunks[i]| == 2 * renderDistance) &&
      InWindow(ci, cj)
    }

    /** Solidity of a block of the chunk being meshed. */
    function Solid(b: Int3): bool
      requires Valid()
    {
      chunks[ci][cj](b.x, b.y, b.z)
    }
  }

  /**
   * The neighbour-chunk lookup: a grid index outside the window counts as
   * solid (the face is hidden); otherwise the block `p` of that chunk decides.
   */
  function NeighbourSolid(t: Target, i: int, j: int, p: Int3): bool
    requires t.Valid()
  {
    if !t.InWindow(i, j) then true
    else t.chunks[i][j](p.x, p.y, p.z)
  }

  /**
   * `AdjacentSolid`: is the neighbour of block `b` in direction `d` solid?
   * Inside the chunk that block decides. Past the top or bottom of the world
   * the answer is "no" (the face is drawn). Past a horizontal edge the
   * neighbour chunk is consulted at the opposite edge.
   */
  function AdjacentSolid(t: Target, b: Int3, d: WorldDirection): bool
    requires t.Valid()
  {
    var check := b.Plus(BlockVector(d));
    if !InChunk(check) then
      match d
      case Up => false
      case Down => false
      case Forward => NeighbourSolid(t, t.ci, t.cj + 1, Int3(check.x, check.y, 0))
      case Backward => NeighbourSolid(t, t.ci, t.cj - 1, Int3(check.x, check.y, ChunkSize - 1))
      case Left => NeighbourSolid(t, t.ci + 1, t.cj, Int3(0, check.y, check.z))
      case Right => NeighbourSolid(t, t.ci - 1, t.cj, Int3(ChunkSize - 1, check.y, check.z))
    else
      t.Solid(check)
  }

  /** A face of a block: the block's local position and the direction it looks. */
  datatype Face = Face(pos: Int3, dir: WorldDirection)

  /** A face is drawn when its block is solid and the neighbour it looks at is not. */
  predicate Visible(t: Target, f: Face)
    requires t.Valid()
  {
    InChunk(f.pos) && Drawn(t, f)
  }

  /** The corners of a quad, as `AddFace` names them. */
  datatype Corner = TopLeft | TopRight | BottomLeft | BottomRight

  /** One vertex appended to the surface: its face, its corner and its UV. */
  datatype Vertex = Vertex(face: Face, corner: Corner, uv: Vector2)

  /**
   * `AddFace`: two triangles, (top-left, bottom-right, bottom-left) and
   * (top-left, top-right, bottom-right), each vertex with its corner's UV.
   */
  function AddFace(f: Face): seq<Vertex>
  {
    [ Vertex(f, TopLeft, Vector2(0.0, 0.0)),
      Vertex(f, BottomRight, Vector2(1.0, 1.0)),
      Vertex(f, BottomLeft, Vector2(0.0, 1.0)),
      Vertex(f, TopLeft, Vector2(0.0, 0.0)),
      Vertex(f, TopRight, Vector2(1.0, 0.0)),
      Vertex(f, BottomRight, Vector2(1.0, 1.0)) ]
  }

  /** The UV of each quad corner in texture space. */
  function CornerUv(c: Corner): Vector2 {
    match c
    case TopLeft => Vector2(0.0, 0.0)
    case TopRight => Vector2(1.0, 0.0)
    case BottomLeft => Vector2(0.0, 1.0)
    case BottomRight => Vector2(1.0, 1.0)
  }

  /**
   * Each face is six vertices of that face; every vertex carries the UV of
   * its corner; the two triangles share the top-left/bottom-right diagonal
   * and together use all four corners.
   */
  lemma AddFaceShape(f: Face)
    ensures |AddFace(f)| == 6
    ensures forall k :: 0 <= k < 6 ==> AddFace(f)[k].face == f && AddFace(f)[k].uv == CornerUv(AddFace(f)[k].corner)
    ensures AddFace(f)[0].corner == AddFace(f)[3].corner == TopLeft
    ensures AddFace(f)[1].corner == AddFace(f)[5].corner == BottomRight
    ensures (set k | 0 <= k < 6 :: AddFace(f)[k].corner) == {TopLeft, TopRight, BottomLeft, BottomRight}
  {
    var used := set k | 0 <= k < 6 :: AddFace(f)[k].corner;
    assert AddFace(f)[0].corner in used && AddFace(f)[1].corner in used;
    assert AddFace(f)[2].corner in used && AddFace(f)[4].corner in used;
  }

  /** The vertex buffer of a sequence of faces, in order. */
  function Vertices(faces: seq<Face>): seq<Vertex>
  {
    if faces == [] then [] else AddFace(faces[0]) + Vertices(faces[1..])
  }

  /** Six vertices per face. */
  lemma {:induction false} VerticesLength(faces: seq<Face>)
    ensures |Vertices(faces)| == 6 * |faces|
  {
    if faces != [] {
      VerticesLength(faces[1..]);
    }
  }

  /** The vertex buffer of concatenated face lists is the concatenation of their buffers. */
  lemma {:induction false} VerticesAppend(a: seq<Face>, b: seq<Face>)
    ensures Vertices(a + b) == Vertices(a) + Vertices(b)
  {
    if a == [] {
      assert a + b == b;
    } else {
      assert (a + b)[1..] == a[1..] + b;
      VerticesAppend(a[1..], b);
    }
  }

  // The emission order of `GenerateSurface`: y outermost, then x, then z,
  // then the six directions in enum order.

  /** Faces of solid block `b` among the first `n` directions. */
  function DirFaces(t: Target, b: Int3, n: nat): seq<Face>
    requires t.Valid() && n <= 6
  {
    if n == 0 then []
    else
      var d := DirectionOfIndex(n - 1);
      DirFaces(t, b, n - 1) + (if AdjacentSolid(t, b, d) then [] else [Face(b, d)])
  }

  /** Faces of block `b`: none if it is not solid. */
  function BlockFaces(t: Target, b: Int3): seq<Face>
    requires t.Valid()
  {
    if t.Solid(b) then DirFaces(t, b, 6) else []
  }

  /** Faces of the blocks (x, y, z) with z < n. */
  function ColumnFaces(t: Target, y: int, x: int, n: nat): seq<Face>
    requires t.Valid()
  {
    if n == 0 then [] else ColumnFaces(t, y, x, n - 1) + BlockFaces(t, Int3(x, y, n - 1))
  }

  /** Faces of the blocks at height y with x < n. */
  function RowFaces(t: Target, y: int, n: nat): seq<Face>
    requires t.Valid()
  {
    if n == 0 then [] else RowFaces(t, y, n - 1) + ColumnFaces(t, y, n - 1, ChunkSize)
  }

  /** Faces of the blocks with y < n. */
  function LayerFaces(t: Target, n: nat): seq<Face>
    requires t.Valid()
  {
    if n == 0 then [] else LayerFaces(t, n - 1) + RowFaces(t, n - 1, ChunkSize)
  }

  /** Every face the extractor emits for the target chunk, in emission order. */
  function SurfaceFaces(t: Target): seq<Face>
    requires t.Valid()
  {
    LayerFaces(t, ChunkHeight)
  }

  /**
   * The body of `GenerateSurface`'s direction loop for one solid block: the
   * six directions in enum order, six vertices for each visible face.
   */
  method BlockSurface(t: Target, b: Int3) returns (vertices: seq<Vertex>)
    requires t.Valid()
    ensures vertices == Vertices(DirFaces(t, b, 6))
  {
    vertices := [];
    ghost var faces: seq<Face> := [];
    var i := 0;
    while i < 6
      invariant 0 <= i <= 6
      invariant faces == DirFaces(t, b, i)
      invariant vertices == Vertices(faces)
    {
      var d := DirectionOfIndex(i);
      if !AdjacentSolid(t, b, d) {
        var f := Face(b, d);
        VerticesAppend(faces, [f]);
        assert Vertices([f]) == AddFace(f) + Vertices([]);
        faces := faces + [f];
        vertices := vertices + AddFace(f);
      }
      i := i + 1;
    }
  }

  /**
   * The innermost `z` loop of `GenerateSurface` for one (x, y): air blocks
   * are skipped, solid blocks contribute their visible faces.
   */
  method ColumnSurface(t: Target, y: int, x: int) returns (vertices: seq<Vertex>)
    requires t.Valid()
    ensures vertices == Vertices(ColumnFaces(t, y, x, ChunkSize))
  {
    vertices := [];
    var z := 0;
    while z < ChunkSize
      invariant 0 <= z <= ChunkSize
      invariant vertices == Vertices(ColumnFaces(t, y, x, z))
    {
      var b := Int3(x, y, z);
      if t.Solid(b) {
        var blockVertices := BlockSurface(t, b);
        assert BlockFaces(t, b) == DirFaces(t, b, 6);
        vertices := vertices + blockVertices;
      } else {
        assert BlockFaces(t, b) == [];
        assert Vertices(BlockFaces(t, b)) == [];
      }
      VerticesAppend(ColumnFaces(t, y, x, z), BlockFaces(t, b));
      z := z + 1;
    }
  }

  /** The `x` loop of `GenerateSurface` for one height y. */
  method LayerSurface(t: Target, y: int) returns (vertices: seq<Vertex>)
    requires t.Valid()
    ensures vertices == Vertices(RowFaces(t, y, ChunkSize))
  {
    vertices := [];
    var x := 0;
    while x < ChunkSize
      invariant 0 <= x <= ChunkSize
      invariant vertices == Vertices(RowFaces(t, y, x))
    {
      var column := ColumnSurface(t, y, x);
      assert vertices + column == Vertices(RowFaces(t, y, x + 1)) by {
        VerticesAppend(RowFaces(t, y, x), ColumnFaces(t, y, x, ChunkSize));
      }
      vertices := vertices + column;
      x := x + 1;
    }
  }

  /**
   * `GenerateSurface` (normals, tangents and the SurfaceTool left out): the
   * outer `y` loop; the `x`, `z` and direction loops are `LayerSurface`,
   * `ColumnSurface` and `BlockSurface`.
   */
  method GenerateSurface(t: Target) returns (surface: seq<Vertex>)
    requires t.Valid()
    ensures surface == Vertices(SurfaceFaces(t))
  {
    surface := [];
    var y := 0;
    while y < ChunkHeight
      invariant 0 <= y <= ChunkHeight
      invariant surface == Vertices(LayerFaces(t, y))
    {
      var layer := LayerSurface(t, y);
      assert surface + layer == Vertices(LayerFaces(t, y + 1)) by {
        VerticesAppend(LayerFaces(t, y), RowFaces(t, y, ChunkSize));
      }
      surface := surface + layer;
      y := y + 1;
    }
  }

  // Which faces the extractor emits.

  /** The block of the face is solid and the neighbour it looks at is not. */
  predicate Drawn(t: Target, f: Face)
    requires t.Valid()
  {
    t.Solid(f.pos) && !AdjacentSolid(t, f.pos, f.dir)
  }

  lemma {:induction false} DirFacesMembership(t: Target, b: Int3, n: nat, f: Face)
    requires t.Valid() && n <= 6
    ensures f in DirFaces(t, b, n) <==> f.pos == b && DirectionIndex(f.dir) < n && !AdjacentSolid(t, b, f.dir)
  {
    if n > 0 {
      DirFacesMembership(t, b, n - 1, f);
    }
  }

  /**
   * A sequence built by appending `parts(0)`, `parts(1)`, ... holds exactly
   * the elements of those parts.
   */
  lemma {:induction false} AppendedPartsMembership<T>(whole: nat -> seq<T>, parts: nat -> seq<T>, n: nat, x: T)
    requires whole(0) == []
    requires forall k: nat :: 0 < k <= n ==> whole(k) == whole(k - 1) + parts(k - 1)
    ensures x in whole(n) <==> exists k: nat :: k < n && x in parts(k)
  {
    if n > 0 {
      AppendedPartsMembership(whole, parts, n - 1, x);
      assert whole(n) == whole(n - 1) + parts(n - 1);
    }
  }

  lemma ColumnFacesMembership(t: Target, y: int, x: int, f: Face)
    requires t.Valid()
    ensures f in ColumnFaces(t, y, x, ChunkSize) <==>
      f.pos.y == y && f.pos.x == x && 0 <= f.pos.z < ChunkSize && Drawn(t, f)
  {
    var blocks := (z: nat) => BlockFaces(t, Int3(x, y, z));
    AppendedPartsMembership((n: nat) => ColumnFaces(t, y, x, n), blocks, ChunkSize, f);
    if f in ColumnFaces(t, y, x, ChunkSize) {
      var z: nat :| z < ChunkSize && f in blocks(z);
      DirFacesMembership(t, Int3(x, y, z), 6, f);
    }
    if f.pos.y == y && f.pos.x == x && 0 <= f.pos.z < ChunkSize && Drawn(t, f) {
      DirFacesMembership(t, f.pos, 6, f);
      assert f in blocks(f.pos.z);
    }
  }

  lemma RowFacesMembership(t: Target, y: int, f: Face)
    requires t.Valid()
    ensures f in RowFaces(t, y, ChunkSize) <==>
      f.pos.y == y && 0 <= f.pos.x < ChunkSize && 0 <= f.pos.z < ChunkSize && Drawn(t, f)
  {
    var columns := (x: nat) => ColumnFaces(t, y, x, ChunkSize);
    AppendedPartsMembership((n: nat) => RowFaces(t, y, n), columns, ChunkSize, f);
    if f in RowFaces(t, y, ChunkSize) {
      var x: nat :| x < ChunkSize && f in columns(x);
      ColumnFacesMembership(t, y, x, f);
    }
    if f.pos.y == y && 0 <= f.pos.x < ChunkSize && 0 <= f.pos.z < ChunkSize && Drawn(t, f) {
      ColumnFacesMembership(t, y, f.pos.x, f);
      assert f in columns(f.pos.x);
    }
  }

  lemma LayerFacesMembership(t: Target, f: Face)
    requires t.Valid()
    ensures f in LayerFaces(t, ChunkHeight) <==>
      0 <= f.pos.y < ChunkHeight && 0 <= f.pos.x < ChunkSize && 0 <= f.pos.z < ChunkSize && Drawn(t, f)
  {
    var rows := (y: nat) => RowFaces(t, y, ChunkSize);
    AppendedPartsMembership((n: nat) => LayerFaces(t, n), rows, ChunkHeight, f);
    if f in LayerFaces(t, ChunkHeight) {
      var y: nat :| y < ChunkHeight && f in rows(y);
      RowFacesMembership(t, y, f);
    }
    if 0 <= f.pos.y < ChunkHeight && 0 <= f.pos.x < ChunkSize && 0 <= f.pos.z < ChunkSize && Drawn(t, f) {
      RowFacesMembership(t, f.pos.y, f);
      assert f in rows(f.pos.y);
    }
  }

  // Each face is emitted at most once.

  /** No element occurs twice. */
  predicate Distinct<T(==)>(s: seq<T>) {
    forall i, j :: 0 <= i < j < |s| ==> s[i] != s[j]
  }

  lemma DistinctAppend<T>(a: seq<T>, b: seq<T>)
    requires Distinct(a) && Distinct(b)
    requires forall x :: x in a ==> x !in b
    ensures Distinct(a + b)
  {
    forall i, j | 0 <= i < j < |a + b|
      ensures (a + b)[i] != (a + b)[j]
    {
      if j < |a| {
        assert (a + b)[i] == a[i] && (a + b)[j] == a[j];
      } else if i >= |a| {
        assert (a + b)[i] == b[i - |a|] && (a + b)[j] == b[j - |a|];
      } else {
        assert (a + b)[i] == a[i] && (a + b)[j] == b[j - |a|];
        assert a[i] in a;
      }
    }
  }

  /**
   * A sequence built by appending `parts(0)`, `parts(1)`, ... has no
   * repeated element when each part has none and `key` tells the parts
   * apart.
   */
  lemma {:induction false} AppendedPartsDistinct<T>(whole: nat -> seq<T>, parts: nat -> seq<T>, key: T -> int, n: nat)
    requires whole(0) == []
    requires forall k: nat :: 0 < k <= n ==> whole(k) == whole(k - 1) + parts(k - 1)
    requires forall k: nat :: k < n ==> Distinct(parts(k))
    requires forall k: nat, x :: k < n && x in parts(k) ==> key(x) == k
    ensures Distinct(whole(n))
    ensures forall x :: x in whole(n) ==> key(x) < n
  {
    if n > 0 {
      AppendedPartsDistinct(whole, parts, key, n - 1);
      assert whole(n) == whole(n - 1) + parts(n - 1);
      DistinctAppend(whole(n - 1), parts(n - 1));
    }
  }

  /** The direction loop tests each direction once. */
  lemma {:induction false} DirFacesDistinct(t: Target, b: Int3, n: nat)
    requires t.Valid() && n <= 6
    ensures Distinct(DirFaces(t, b, n))
  {
    if n > 0 {
      DirFacesDistinct(t, b, n - 1);
      var d, prev := DirectionOfIndex(n - 1), DirFaces(t, b, n - 1);
      forall f | f in prev
        ensures f != Face(b, d)
      {
        DirFacesMembership(t, b, n - 1, f);
      }
      DistinctAppend(prev, if AdjacentSolid(t, b, d) then [] else [Face(b, d)]);
    }
  }

  /** The z loop emits no face twice: faces of different blocks differ in z. */
  lemma ColumnFacesDistinct(t: Target, y: int, x: int)
    requires t.Valid()
    ensures Distinct(ColumnFaces(t, y, x, ChunkSize))
  {
    var blocks := (z: nat) => BlockFaces(t, Int3(x, y, z));
    forall z: nat | z < ChunkSize
      ensures Distinct(blocks(z))
    {
      DirFacesDistinct(t, Int3(x, y, z), 6);
    }
    forall z: nat, f | z < ChunkSize && f in blocks(z)
      ensures f.pos.z == z
    {
      DirFacesMembership(t, Int3(x, y, z), 6, f);
    }
    AppendedPartsDistinct((n: nat) => ColumnFaces(t, y, x, n), blocks, (f: Face) => f.pos.z, ChunkSize);
  }

  /** The x loop emits no face twice: faces of different columns differ in x. */
  lemma RowFacesDistinct(t: Target, y: int)
    requires t.Valid()
    ensures Distinct(RowFaces(t, y, ChunkSize))
  {
    var columns := (x: nat) => ColumnFaces(t, y, x, ChunkSize);
    forall x: nat | x < ChunkSize
      ensures Distinct(columns(x))
    {
      ColumnFacesDistinct(t, y, x);
    }
    forall x: nat, f | x < ChunkSize && f in columns(x)
      ensures f.pos.x == x
    {
      ColumnFacesMembership(t, y, x, f);
    }
    AppendedPartsDistinct((n: nat) => RowFaces(t, y, n), columns, (f: Face) => f.pos.x, ChunkSize);
  }

  /** The y loop emits no face twice: faces of different layers differ in y. */
  lemma LayerFacesDistinct(t: Target)
    requires t.Valid()
    ensures Distinct(LayerFaces(t, ChunkHeight))
  {
    var rows := (y: nat) => RowFaces(t, y, ChunkSize);
    forall y: nat | y < ChunkHeight
      ensures Distinct(rows(y))
    {
      RowFacesDistinct(t, y);
    }
    forall y: nat, f | y < ChunkHeight && f in rows(y)
      ensures f.pos.y == y
    {
      RowFacesMembership(t, y, f);
    }
    AppendedPartsDistinct((n: nat) => LayerFaces(t, n), rows, (f: Face) => f.pos.y, ChunkHeight);
  }

  /**
   * The extractor emits exactly the visible faces, each once: only solid
   * blocks of the chunk, each tested in all six directions, and six
   * vertices per face.
   */
  lemma SurfaceIsVisibleFaces(t: Target, f: Face)
    requires t.Valid()
    ensures f in SurfaceFaces(t) <==> Visible(t, f)
    ensures Distinct(SurfaceFaces(t))
    ensures |Vertices(SurfaceFaces(t))| == 6 * |SurfaceFaces(t)|
  {
    LayerFacesMembership(t, f);
    LayerFacesDistinct(t);
    VerticesLength(SurfaceFaces(t));
  }

  /** A neighbour inside the chunk hides the face iff it is solid. */
  lemma InChunkNeighbour(t: Target, b: Int3, d: WorldDirection)
    requires t.Valid() && InChunk(b) && InChunk(b.Plus(BlockVector(d)))
    ensures Visible(t, Face(b, d)) <==> t.Solid(b) && !t.Solid(b.Plus(BlockVector(d)))
  {
  }

  /** Faces looking past the top or the bottom of the world are always drawn. */
  lemma VerticalEdgeAlwaysDrawn(t: Target, b: Int3, d: WorldDirection)
    requires t.Valid() && InChunk(b) && !IsHorizontal(d)
    requires !InChunk(b.Plus(BlockVector(d)))
    ensures Visible(t, Face(b, d)) <==> t.Solid(b)
    ensures b.y == 0 || b.y == ChunkHeight - 1
  {
  }

  /** The grid index of the chunk a horizontal step leaves into. */
  function NeighbourIndex(t: Target, d: WorldDirection): (int, int)
    requires IsHorizontal(d)
  {
    match d
    case Forward => (t.ci, t.cj + 1)
    case Backward => (t.ci, t.cj - 1)
    case Left => (t.ci + 1, t.cj)
    case Right => (t.ci - 1, t.cj)
  }

  /** The block of the neighbour chunk that a horizontal exit looks at: the opposite edge. */
  function RemapToOppositeEdge(p: Int3, d: WorldDirection): Int3
    requires IsHorizontal(d)
  {
    match d
    case Forward => Int3(p.x, p.y, 0)
    case Backward => Int3(p.x, p.y, ChunkSize - 1)
    case Left => Int3(0, p.y, p.z)
    case Right => Int3(ChunkSize - 1, p.y, p.z)
  }

  /**
   * Horizontal exits: a neighbour chunk outside the window hides the face;
   * otherwise the face is drawn iff the neighbour chunk's block at the
   * opposite edge, same other two coordinates, is not solid.
   */
  lemma HorizontalExit(t: Target, b: Int3, d: WorldDirection)
    requires t.Valid() && InChunk(b) && IsHorizontal(d)
    requires !InChunk(b.Plus(BlockVector(d)))
    ensures RemapToOppositeEdge(b, d) == RemapToOppositeEdge(b.Plus(BlockVector(d)), d)
    ensures InChunk(RemapToOppositeEdge(b, d))
    ensures var (i, j) := NeighbourIndex(t, d);
      !t.InWindow(i, j) ==> !Visible(t, Face(b, d))
    ensures var (i, j) := NeighbourIndex(t, d);
      t.InWindow(i, j) ==>
        (Visible(t, Face(b, d)) <==>
           t.Solid(b) && !t.chunks[i][j](RemapToOppositeEdge(b, d).x, RemapToOppositeEdge(b, d).y, RemapToOppositeEdge(b, d).z))
  {
  }

  /**
   * Culling agrees from both sides of a shared edge: with chunk (i+1, j)
   * to the Left of chunk (i, j), the Left face of (15, y, z) in (i, j) reads
   * (0, y, z) of (i+1, j) and the Right face of (0, y, z) in (i+1, j) reads
   * (15, y, z) of (i, j), so at most one of the two faces is drawn, and
   * neither when both blocks are solid.
   */
  lemma SharedEdgeSymmetry(a: Target, y: int, z: int)
    requires a.Valid() && a.InWindow(a.ci + 1, a.cj)
    requires 0 <= y < ChunkHeight && 0 <= z < ChunkSize
    ensures var b := a.(ci := a.ci + 1);
      b.Valid() &&
      (Visible(a, Face(Int3(ChunkSize - 1, y, z), Left)) <==>
         a.Solid(Int3(ChunkSize - 1, y, z)) && !b.Solid(Int3(0, y, z))) &&
      (Visible(b, Face(Int3(0, y, z), Right)) <==>
         b.Solid(Int3(0, y, z)) && !a.Solid(Int3(ChunkSize - 1, y, z))) &&
      !(Visible(a, Face(Int3(ChunkSize - 1, y, z), Left)) && Visible(b, Face(Int3(0, y, z), Right)))
  {
    var b := a.(ci := a.ci + 1);
    HorizontalExit(a, Int3(ChunkSize - 1, y, z), Left);
    HorizontalExit(b, Int3(0, y, z), Right);
  }

  /** A chunk whose only solid blocks form the layer y = 0. */
  ghost predicate FlatFloor(s: Solidity) {
    forall x, y, z :: s(x, y, z) <==> y == 0
  }

  /**
   * The flat-floor scenario: if every resident chunk is solid exactly at
   * y = 0, each chunk emits exactly the top and bottom faces of its floor
   * blocks; sides facing another resident chunk or the window edge are
   * culled.
   */
  lemma FlatFloorSurface(t: Target, f: Face)
    requires t.Valid()
    requires forall i, j :: 0 <= i < |t.chunks| && 0 <= j < |t.chunks[i]| ==> FlatFloor(t.chunks[i][j])
    ensures f in SurfaceFaces(t) <==> InChunk(f.pos) && f.pos.y == 0 && !IsHorizontal(f.dir)
  {
    SurfaceIsVisibleFaces(t, f);
    assert FlatFloor(t.chunks[t.ci][t.cj]);
    if InChunk(f.pos) && f.pos.y == 0 && IsHorizontal(f.dir) {
      var c := f.pos.Plus(BlockVector(f.dir));
      if !InChunk(c) {
        var (i, j) := NeighbourIndex(t, f.dir);
        HorizontalExit(t, f.pos, f.dir);
        if t.InWindow(i, j) {
          assert FlatFloor(t.chunks[i][j]);
        }
      }
    }
  }
}
