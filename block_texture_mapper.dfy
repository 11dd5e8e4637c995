/**
 * The block texture table (`BlockTextureMapper`): each block has six faces,
 * each face four UV corners into the texture atlas, starting at the top left
 * corner and going clockwise. A texture occupies a 20-pixel cell of a
 * 1280-pixel atlas, of which the UVs use the part inset by a 2-pixel margin.
 */
module TextureMapping {
  import opened Wrappers
  import opened Globals

  /** Pixels per atlas cell in each direction, margins included. */
  const GridSize: int := 20
  /** Pixels of the whole atlas in each direction. */
  const AtlasSize: int := 1280
  /** Pixels left unused on each side of a cell. */
  const Margin: int := 2

  /** The UVs of one face, corner 0 top left, then clockwise. */
  datatype FaceUv = FaceUv(corners: seq<Vector2>)

  /** The UVs of the six faces of a block, in `WorldDirection` order. */
  datatype BlockUv = BlockUv(faces: seq<FaceUv>)

  datatype TextureError = InvalidCorner | UnknownBlockName | IndexOutOfRange | DuplicateBlockName

  // Reference geometry of the atlas.

  /** The top-left corner of the inset part of the cell at grid position `pos`, in UV units. */
  function InsetLow(pos: Vector2): Vector2 {
    Vector2((pos.x * GridSize as real + Margin as real) / AtlasSize as real,
            (pos.y * GridSize as real + Margin as real) / AtlasSize as real)
  }

  /** The bottom-right corner of the inset part of the cell at grid position `pos`, in UV units. */
  function InsetHigh(pos: Vector2): Vector2 {
    Vector2(((pos.x + 1.0) * GridSize as real - Margin as real) / AtlasSize as real,
            ((pos.y + 1.0) * GridSize as real - Margin as real) / AtlasSize as real)
  }

  /** Corner `c` of the rectangle from `lo` to `hi`: top left, top right, bottom right, bottom left (v grows downwards). */
  function RectCorner(lo: Vector2, hi: Vector2, c: int): Vector2
    requires 0 <= c < 4
  {
    if c == 0 then Vector2(lo.x, lo.y)
    else if c == 1 then Vector2(hi.x, lo.y)
    else if c == 2 then Vector2(hi.x, hi.y)
    else Vector2(lo.x, hi.y)
  }

  /** `(pos * GridSize + (ox, oy)) / AtlasSize`, the pixel-to-UV mapping of `AtlasFaceToUv`. */
  function PixelToUv(pos: Vector2, ox: int, oy: int): Vector2 {
    Vector2((pos.x * GridSize as real + ox as real) / AtlasSize as real,
            (pos.y * GridSize as real + oy as real) / AtlasSize as real)
  }

  /**
   * `AtlasFaceToUv`: the UV of corner `corner` of the texture at grid
   * position `pos`; any corner other than 0..3 is an error.
   */
  function AtlasFaceToUv(pos: Vector2, corner: int): (r: Result<Vector2, TextureError>)
    ensures r.Err? <==> !(0 <= corner < 4)
    ensures r.Err? ==> r.error == InvalidCorner
    ensures r.Ok? ==> r.value == RectCorner(InsetLow(pos), InsetHigh(pos), corner)
  {
    if corner == 0 then Ok(PixelToUv(pos, Margin, Margin))
    else if corner == 1 then Ok(PixelToUv(pos, GridSize - Margin, Margin))
    else if corner == 2 then Ok(PixelToUv(pos, GridSize - Margin, GridSize - Margin))
    else if corner == 3 then Ok(PixelToUv(pos, Margin, GridSize - Margin))
    else Err(InvalidCorner)
  }

  /** In pixels, the corners sit at (2, 2), (18, 2), (18, 18) and (2, 18) from the cell's origin. */
  lemma CornerPixelOffsets(pos: Vector2, c: int)
    requires 0 <= c < 4
    ensures var uv := AtlasFaceToUv(pos, c).value;
      uv.x * AtlasSize as real - pos.x * GridSize as real == [2.0, 18.0, 18.0, 2.0][c] &&
      uv.y * AtlasSize as real - pos.y * GridSize as real == [2.0, 2.0, 18.0, 18.0][c]
  {
  }

  /** Every corner lies strictly inside its 20-pixel cell, never on the cell's border. */
  lemma CornerInsideCell(pos: Vector2, c: int)
    requires 0 <= c < 4
    ensures var uv := AtlasFaceToUv(pos, c).value;
      pos.x * GridSize as real / AtlasSize as real < uv.x < (pos.x + 1.0) * GridSize as real / AtlasSize as real &&
      pos.y * GridSize as real / AtlasSize as real < uv.y < (pos.y + 1.0) * GridSize as real / AtlasSize as real
  {
  }

  /**
   * Consecutive corners differ in exactly one coordinate and go round
   * clockwise: right, down, left, up.
   */
  lemma CornersClockwise(pos: Vector2)
    ensures var uv := (c: int) requires 0 <= c < 4 => AtlasFaceToUv(pos, c).value;
      uv(0).y == uv(1).y && uv(0).x < uv(1).x &&
      uv(1).x == uv(2).x && uv(1).y < uv(2).y &&
      uv(2).y == uv(3).y && uv(2).x > uv(3).x &&
      uv(3).x == uv(0).x && uv(3).y > uv(0).y
  {
  }

  /** The inset rectangles of two different cells of the grid do not overlap. */
  lemma InsetCellsDisjoint(i1: int, j1: int, i2: int, j2: int)
    requires (i1, j1) != (i2, j2)
    ensures var p, q := Vector2(i1 as real, j1 as real), Vector2(i2 as real, j2 as real);
      InsetHigh(p).x < InsetLow(q).x || InsetHigh(q).x < InsetLow(p).x ||
      InsetHigh(p).y < InsetLow(q).y || InsetHigh(q).y < InsetLow(p).y
  {
    if i1 < i2 {
      assert (i1 as real + 1.0) <= i2 as real;
    } else if i2 < i1 {
      assert (i2 as real + 1.0) <= i1 as real;
    } else if j1 < j2 {
      assert (j1 as real + 1.0) <= j2 as real;
    } else {
      assert (j2 as real + 1.0) <= j1 as real;
    }
  }

  // The BlockUv table.

  /** The table `new BlockUv(coords)` holds: face i, corner j is `AtlasFaceToUv(coords[i], j)`. */
  function BlockUvOf(coords: seq<Vector2>): BlockUv
    requires |coords| >= 6
  {
    BlockUv(seq(6, i requires 0 <= i < 6 =>
      FaceUv(seq(4, j requires 0 <= j < 4 => AtlasFaceToUv(coords[i], j).value))))
  }

  /** Six faces of four corners each. */
  predicate WellShaped(b: BlockUv) {
    |b.faces| == 6 && forall i :: 0 <= i < 6 ==> |b.faces[i].corners| == 4
  }

  /** Every corner of a built table is the matching corner of that face's inset cell. */
  lemma BlockUvCorners(coords: seq<Vector2>, i: int, j: int)
    requires |coords| >= 6 && 0 <= i < 6 && 0 <= j < 4
    ensures WellShaped(BlockUvOf(coords))
    ensures BlockUvOf(coords).faces[i].corners[j] == RectCorner(InsetLow(coords[i]), InsetHigh(coords[i]), j)
  {
  }

  /** The `BlockUv` constructor: fill six corner arrays and the face array. */
  method NewBlockUv(faceTexCoords: seq<Vector2>) returns (b: BlockUv)
    requires |faceTexCoords| >= 6
    ensures b == BlockUvOf(faceTexCoords)
    ensures WellShaped(b)
  {
    var faces := new FaceUv[6](_ => FaceUv([]));
    for i := 0 to 6
      invariant forall k :: 0 <= k < i ==> faces[k] == BlockUvOf(faceTexCoords).faces[k]
    {
      var corners := new Vector2[4](_ => Vector2(0.0, 0.0));
      for j := 0 to 4
        modifies corners
        invariant forall m :: 0 <= m < j ==> corners[m] == AtlasFaceToUv(faceTexCoords[i], m).value
      {
        corners[j] := AtlasFaceToUv(faceTexCoords[i], j).value;
      }
      assert corners[..] == BlockUvOf(faceTexCoords).faces[i].corners;
      faces[i] := FaceUv(corners[..]);
    }
    b := BlockUv(faces[..]);
  }

  // Face specifications of the atlas description.

  /** Which faces a `<face>` element sets: all six, the four sides, or one named face. */
  datatype FaceSpec = All | Side | Single(direction: WorldDirection)

  /** Whether face index `i` is set by `spec`. */
  predicate Covers(spec: FaceSpec, i: int) {
    match spec
    case All => 0 <= i < 6
    case Side => 0 <= i < 4
    case Single(d) => i == DirectionIndex(d)
  }

  /** "side" covers exactly the horizontal directions. */
  lemma SideCoversHorizontal(d: WorldDirection)
    ensures Covers(Side, DirectionIndex(d)) <==> IsHorizontal(d)
  {
  }

  /** The six face coordinates after a `<face>` element with coordinate `v`. */
  function ExpandFaceSpec(faces: seq<Vector2>, spec: FaceSpec, v: Vector2): (r: seq<Vector2>)
    requires |faces| == 6
    ensures |r| == 6
    ensures forall i :: 0 <= i < 6 ==> r[i] == (if Covers(spec, i) then v else faces[i])
  {
    match spec
    case All => [v, v, v, v, v, v]
    case Side => [v, v, v, v] + faces[4..]
    case Single(d) => faces[DirectionIndex(d) := v]
  }

  /** The switch on the face type, writing the `faces` array in place. */
  method ApplyFaceSpec(faces: array<Vector2>, spec: FaceSpec, v: Vector2)
    requires faces.Length == 6
    modifies faces
    ensures faces[..] == ExpandFaceSpec(old(faces[..]), spec, v)
  {
    match spec
    case All =>
      faces[0] := v;
      faces[1], faces[2], faces[3], faces[4], faces[5] := faces[0], faces[0], faces[0], faces[0], faces[0];
    case Side =>
      faces[0] := v;
      faces[1], faces[2], faces[3] := faces[0], faces[0], faces[0];
    case Single(d) =>
      faces[DirectionIndex(d)] := v;
  }

  /**
   * The `<face>` loop of one `<block>` element: six zero coordinates, then
   * each element applied in document order to the `faces` array.
   */
  method ReadFaces(specs: seq<(FaceSpec, Vector2)>) returns (r: seq<Vector2>)
    ensures r == FacesOf(specs)
  {
    var faces := new Vector2[6](_ => Vector2(0.0, 0.0));
    assert faces[..] == FacesOf([]);
    for s := 0 to |specs|
      invariant faces[..] == FacesOf(specs[..s])
    {
      assert specs[..s + 1][..s] == specs[..s];
      ApplyFaceSpec(faces, specs[s].0, specs[s].1);
    }
    assert specs[..|specs|] == specs;
    r := faces[..];
  }

  /** The face coordinates of a block after its `<face>` elements, starting from six zero vectors. */
  function FacesOf(specs: seq<(FaceSpec, Vector2)>): (r: seq<Vector2>)
    ensures |r| == 6
  {
    if specs == [] then seq(6, _ => Vector2(0.0, 0.0))
    else ExpandFaceSpec(FacesOf(specs[..|specs| - 1]), specs[|specs| - 1].0, specs[|specs| - 1].1)
  }

  /** A later `<face>` element overrides an earlier one on the faces it covers. */
  lemma {:induction false} LastSpecWins(specs: seq<(FaceSpec, Vector2)>, i: int)
    requires 0 <= i < 6
    ensures (exists k :: 0 <= k < |specs| && Covers(specs[k].0, i)) ==>
      var k := LastCovering(specs, i); FacesOf(specs)[i] == specs[k].1
    ensures (forall k :: 0 <= k < |specs| ==> !Covers(specs[k].0, i)) ==> FacesOf(specs)[i] == Vector2(0.0, 0.0)
  {
    if specs != [] {
      var front := specs[..|specs| - 1];
      LastSpecWins(front, i);
      assert forall k :: 0 <= k < |front| ==> front[k] == specs[k];
      if !Covers(specs[|specs| - 1].0, i) && exists k :: 0 <= k < |specs| && Covers(specs[k].0, i) {
        var k :| 0 <= k < |specs| && Covers(specs[k].0, i);
        assert k < |front| && Covers(front[k].0, i);
      }
    }
  }

  /** The index of the last element of `specs` that covers face `i`. */
  function LastCovering(specs: seq<(FaceSpec, Vector2)>, i: int): (k: int)
    requires exists k :: 0 <= k < |specs| && Covers(specs[k].0, i)
    ensures 0 <= k < |specs| && Covers(specs[k].0, i)
    ensures forall m :: k < m < |specs| ==> !Covers(specs[m].0, i)
  {
    if Covers(specs[|specs| - 1].0, i) then |specs| - 1
    else
      var front := specs[..|specs| - 1];
      assert exists k :: 0 <= k < |front| && Covers(front[k].0, i) by {
        var k :| 0 <= k < |specs| && Covers(specs[k].0, i);
        assert k < |front| && front[k] == specs[k];
      }
      var k := LastCovering(front, i);
      assert front[k] == specs[k];
      k
  }

  /** One `<block>` element: its id, its name and its `<face>` elements in document order. */
  datatype BlockEntry = BlockEntry(id: int, name: string, faceSpecs: seq<(FaceSpec, Vector2)>)

  /**
   * The block list after inserting the tables of `entries` one by one at
   * their ids (`List.Insert`), or None when an id is past the end of the
   * list at its turn.
   */
  function LoadedTables(entries: seq<BlockEntry>): Option<seq<BlockUv>>
  {
    if entries == [] then Some([])
    else
      var prev := LoadedTables(entries[..|entries| - 1]);
      var e := entries[|entries| - 1];
      if prev.None? || !(0 <= e.id <= |prev.value|) then None
      else Some(prev.value[..e.id] + [BlockUvOf(FacesOf(e.faceSpecs))] + prev.value[e.id..])
  }

  /** The names of the entries. */
  function EntryNames(entries: seq<BlockEntry>): set<string> {
    set k | 0 <= k < |entries| :: entries[k].name
  }

  /** One more entry adds its name. */
  lemma EntryNamesStep(entries: seq<BlockEntry>, n: int)
    requires 0 <= n < |entries|
    ensures EntryNames(entries[..n + 1]) == EntryNames(entries[..n]) + {entries[n].name}
  {
    var front, next := entries[..n], entries[..n + 1];
    forall name | name in EntryNames(next)
      ensures name in EntryNames(front) + {entries[n].name}
    {
      var k :| 0 <= k < |next| && next[k].name == name;
      if k < n {
        assert front[k] == next[k];
      }
    }
    forall name | name in EntryNames(front)
      ensures name in EntryNames(next)
    {
      var k :| 0 <= k < |front| && front[k].name == name;
      assert next[k] == front[k];
    }
    assert next[n] == entries[n];
  }

  /** With the ids 0, 1, 2, ... in document order, block k gets the table of entry k. */
  lemma {:induction false} InOrderTables(entries: seq<BlockEntry>)
    requires forall k :: 0 <= k < |entries| ==> entries[k].id == k
    ensures LoadedTables(entries).Some? && |LoadedTables(entries).value| == |entries|
    ensures forall k :: 0 <= k < |entries| ==>
      LoadedTables(entries).value[k] == BlockUvOf(FacesOf(entries[k].faceSpecs))
  {
    if entries != [] {
      var front := entries[..|entries| - 1];
      assert forall k :: 0 <= k < |front| ==> front[k] == entries[k];
      InOrderTables(front);
      var prev := LoadedTables(front).value;
      var e := entries[|entries| - 1];
      assert prev[..e.id] == prev && prev[e.id..] == [];
    }
  }

  /** Registering one more entry extends the reference tables by its `Insert`. */
  lemma LoadedTablesStep(entries: seq<BlockEntry>, n: int, before: seq<BlockUv>)
    requires 0 <= n < |entries| && LoadedTables(entries[..n]) == Some(before)
    requires 0 <= entries[n].id <= |before|
    ensures LoadedTables(entries[..n + 1]) ==
      Some(before[..entries[n].id] + [BlockUvOf(FacesOf(entries[n].faceSpecs))] + before[entries[n].id..])
  {
    assert entries[..n + 1][..n] == entries[..n];
  }

  /** No two entries share a name, so every `Dictionary.Add` finds its name new. */
  predicate NamesDistinct(entries: seq<BlockEntry>) {
    forall i, j :: 0 <= i < j < |entries| ==> entries[i].name != entries[j].name
  }

  /** An entry with a name not seen before keeps the names distinct. */
  lemma NamesDistinctStep(entries: seq<BlockEntry>, n: int)
    requires 0 <= n < |entries| && NamesDistinct(entries[..n])
    requires entries[n].name !in EntryNames(entries[..n])
    ensures NamesDistinct(entries[..n + 1])
  {
    var front, next := entries[..n], entries[..n + 1];
    forall i, j | 0 <= i < j < |next|
      ensures next[i].name != next[j].name
    {
      assert next[i] == front[i];
      if j < n {
        assert next[j] == front[j];
      } else {
        assert front[i].name in EntryNames(front);
      }
    }
  }

  /**
   * Every `Insert` finds its id in range: before entry k the list holds k
   * tables, so its id must lie in [0, k].
   */
  predicate IdsInsertable(entries: seq<BlockEntry>) {
    forall k :: 0 <= k < |entries| ==> 0 <= entries[k].id <= k
  }

  /** The reference tables exist exactly when every id is insertable, one table per entry. */
  lemma {:induction false} LoadedTablesDefined(entries: seq<BlockEntry>)
    ensures LoadedTables(entries).Some? <==> IdsInsertable(entries)
    ensures LoadedTables(entries).Some? ==> |LoadedTables(entries).value| == |entries|
  {
    if entries != [] {
      var front := entries[..|entries| - 1];
      LoadedTablesDefined(front);
      assert forall k :: 0 <= k < |front| ==> front[k] == entries[k];
    }
  }

  /** A name already added before entry n means the names are not distinct. */
  lemma RepeatedNameAt(entries: seq<BlockEntry>, n: int)
    requires 0 <= n < |entries| && entries[n].name in EntryNames(entries[..n])
    ensures !NamesDistinct(entries)
  {
    var k :| 0 <= k < n && entries[..n][k].name == entries[n].name;
    assert entries[k].name == entries[n].name;
  }

  /** With in-order ids, corner c of face d of block k comes from the coordinates of entry k's face d. */
  lemma InOrderCorners(entries: seq<BlockEntry>, blocks: seq<BlockUv>)
    requires LoadedTables(entries) == Some(blocks)
    requires forall k :: 0 <= k < |entries| ==> entries[k].id == k
    ensures |blocks| == |entries|
    ensures forall k, d, c :: 0 <= k < |entries| && 0 <= d < 6 && 0 <= c < 4 ==>
      |blocks[k].faces| == 6 && |blocks[k].faces[d].corners| == 4 &&
      blocks[k].faces[d].corners[c] == AtlasFaceToUv(FacesOf(entries[k].faceSpecs)[d], c).value
  {
    InOrderTables(entries);
    forall k, d, c | 0 <= k < |entries| && 0 <= d < 6 && 0 <= c < 4
      ensures |blocks[k].faces| == 6 && |blocks[k].faces[d].corners| == 4 &&
        blocks[k].faces[d].corners[c] == AtlasFaceToUv(FacesOf(entries[k].faceSpecs)[d], c).value
    {
      BlockUvCorners(FacesOf(entries[k].faceSpecs), d, c);
    }
  }

  /**
   * Out of order, `Insert` moves tables that are already registered while
   * their names keep the old ids: after "a" and then "b" are both given id
   * 0, position 0, which "a" still maps to, holds the table of "b".
   */
  lemma InsertShiftsRegisteredTable(a: BlockEntry, b: BlockEntry, va: Vector2, vb: Vector2)
    requires a.id == 0 && b.id == 0 && va != vb
    requires a.faceSpecs == [(All, va)] && b.faceSpecs == [(All, vb)]
    ensures LoadedTables([a, b]) == Some([BlockUvOf(FacesOf(b.faceSpecs)), BlockUvOf(FacesOf(a.faceSpecs))])
    ensures LoadedTables([a, b]).value[a.id] != BlockUvOf(FacesOf(a.faceSpecs))
  {
    var ta, tb := BlockUvOf(FacesOf(a.faceSpecs)), BlockUvOf(FacesOf(b.faceSpecs));
    assert [a, b][..1] == [a] && [a][..0] == [];
    var empty: seq<BlockUv> := [];
    assert LoadedTables([a]) == Some(empty[..0] + [ta] + empty[0..]);
    assert empty[..0] + [ta] + empty[0..] == [ta];
    assert [ta][..0] + [tb] + [ta][0..] == [tb, ta];
    assert FacesOf(a.faceSpecs)[0] == va by {
      LastSpecWins(a.faceSpecs, 0);
    }
    assert FacesOf(b.faceSpecs)[0] == vb by {
      LastSpecWins(b.faceSpecs, 0);
    }
    BlockUvCorners(FacesOf(a.faceSpecs), 0, 0);
    BlockUvCorners(FacesOf(b.faceSpecs), 0, 0);
  }

  /**
   * The tables after registering the first n entries: the reference list,
   * each registered name mapped to its id and no other name, distinct
   * names, and every id in range at its turn.
   */
  predicate Loaded(entries: seq<BlockEntry>, n: int, tables: seq<BlockUv>, indices: map<string, int>) {
    0 <= n <= |entries| && |tables| == n &&
    LoadedTables(entries[..n]) == Some(tables) &&
    (forall k :: 0 <= k < n ==> entries[k].name in indices && indices[entries[k].name] == entries[k].id) &&
    indices.Keys == EntryNames(entries[..n]) &&
    NamesDistinct(entries[..n]) &&
    (forall k :: 0 <= k < n ==> 0 <= entries[k].id <= k)
  }

  /** A registration whose `Insert` and `Add` both succeed extends the loaded prefix by one entry. */
  lemma LoadedStep(entries: seq<BlockEntry>, n: int, tables: seq<BlockUv>, indices: map<string, int>)
    requires n < |entries| && Loaded(entries, n, tables, indices)
    requires 0 <= entries[n].id <= n && entries[n].name !in indices
    ensures var e := entries[n];
      Loaded(entries, n + 1, tables[..e.id] + [BlockUvOf(FacesOf(e.faceSpecs))] + tables[e.id..], indices[e.name := e.id])
  {
    var e := entries[n];
    var indices' := indices[e.name := e.id];
    forall k | 0 <= k < n + 1
      ensures entries[k].name in indices' && indices'[entries[k].name] == entries[k].id
    {
      if k < n {
        assert entries[k].name in indices;
      }
    }
    EntryNamesStep(entries, n);
    NamesDistinctStep(entries, n);
    LoadedTablesStep(entries, n, tables);
  }

  /** A registration that fails at entry n means the whole load cannot succeed. */
  lemma LoadFailsAt(entries: seq<BlockEntry>, n: int, tables: seq<BlockUv>, indices: map<string, int>)
    requires n < |entries| && Loaded(entries, n, tables, indices)
    requires !(0 <= entries[n].id <= n) || entries[n].name in indices
    ensures !(IdsInsertable(entries) && NamesDistinct(entries))
  {
    if 0 <= entries[n].id <= n {
      RepeatedNameAt(entries, n);
    }
  }

  /** The static table: the blocks by id and the ids by name. */
  class BlockTextureMapper {
    var blocks: seq<BlockUv>
    var blockIndices: map<string, int>

    /** Every registered table has six faces of four corners. */
    predicate Valid()
      reads this
    {
      forall k :: 0 <= k < |blocks| ==> WellShaped(blocks[k])
    }

    /** The empty table `Initialize` starts from. */
    constructor ()
      ensures Valid() && blocks == [] && blockIndices == map[]
    {
      blocks := [];
      blockIndices := map[];
    }

    /**
     * `GetUvForFace(int blockId, int dir, int corner)`; an index outside
     * its list is an error.
     */
    function UvById(blockId: int, dir: int, corner: int): (r: Result<Vector2, TextureError>)
      reads this
      ensures r.Ok? <==> (0 <= blockId < |blocks| && 0 <= dir < |blocks[blockId].faces| &&
        0 <= corner < |blocks[blockId].faces[dir].corners|)
      ensures r.Ok? ==> r.value == blocks[blockId].faces[dir].corners[corner]
      ensures (Valid() && 0 <= blockId < |blocks| && 0 <= dir < 6 && 0 <= corner < 4) ==> r.Ok?
      ensures r.Err? ==> r.error == IndexOutOfRange
    {
      if 0 <= blockId < |blocks| && 0 <= dir < |blocks[blockId].faces| &&
         0 <= corner < |blocks[blockId].faces[dir].corners|
      then Ok(blocks[blockId].faces[dir].corners[corner])
      else Err(IndexOutOfRange)
    }

    /** `GetUvForFace(string blockName, int dir, int corner)`: look the id up, then as by id. */
    function UvByName(blockName: string, dir: int, corner: int): (r: Result<Vector2, TextureError>)
      reads this
      ensures blockName !in blockIndices ==> r == Err(UnknownBlockName)
      ensures blockName in blockIndices ==> r == UvById(blockIndices[blockName], dir, corner)
      ensures (Valid() && blockName in blockIndices && 0 <= blockIndices[blockName] < |blocks| &&
        0 <= dir < 6 && 0 <= corner < 4) ==> r.Ok?
    {
      if blockName in blockIndices then UvById(blockIndices[blockName], dir, corner)
      else Err(UnknownBlockName)
    }

    /**
     * The end of a `<block>` element: `_blocks.Insert(id, new BlockUv(faces))`
     * then `_blockIndices.Add(name, id)`. Insert rejects an id past the end
     * and shifts the blocks from `id` on; Add rejects a known name, after
     * the insert has already happened.
     */
    method RegisterBlock(id: int, name: string, faces: seq<Vector2>) returns (r: Result<(), TextureError>)
      requires Valid() && |faces| == 6
      modifies this
      ensures Valid()
      ensures !(0 <= id <= |old(blocks)|) ==>
        r == Err(IndexOutOfRange) && blocks == old(blocks) && blockIndices == old(blockIndices)
      ensures 0 <= id <= |old(blocks)| ==>
        blocks == old(blocks)[..id] + [BlockUvOf(faces)] + old(blocks)[id..]
      ensures 0 <= id <= |old(blocks)| && name in old(blockIndices) ==>
        r == Err(DuplicateBlockName) && blockIndices == old(blockIndices)
      ensures 0 <= id <= |old(blocks)| && name !in old(blockIndices) ==>
        r == Ok(()) && blockIndices == old(blockIndices)[name := id]
      ensures r.Ok? ==> forall d, c :: 0 <= d < 6 && 0 <= c < 4 ==>
        UvByName(name, d, c) == UvById(id, d, c) == Ok(AtlasFaceToUv(faces[d], c).value)
    {
      if !(0 <= id <= |blocks|) {
        return Err(IndexOutOfRange);
      }
      var uv := NewBlockUv(faces);
      blocks := blocks[..id] + [uv] + blocks[id..];
      assert blocks[id] == uv;
      assert forall k :: 0 <= k < |blocks| ==> blocks[k] == uv || blocks[k] in old(blocks);
      if name in blockIndices {
        return Err(DuplicateBlockName);
      }
      blockIndices := blockIndices[name := id];
      r := Ok(());
      forall d, c | 0 <= d < 6 && 0 <= c < 4
        ensures UvById(id, d, c) == Ok(AtlasFaceToUv(faces[d], c).value)
      {
        BlockUvCorners(faces, d, c);
      }
    }

    /** The state of the load after its first n entries have been registered. */
    predicate LoadedPrefix(entries: seq<BlockEntry>, n: int)
      reads this
    {
      Valid() && Loaded(entries, n, blocks, blockIndices)
    }

    /**
     * One `<block>` element of the load: six zero coordinates, its `<face>`
     * elements applied in order, and the registration. A failure means the
     * whole entry list has an id out of range at its turn or a repeated name.
     */
    method LoadBlock(entries: seq<BlockEntry>, n: int) returns (r: Result<(), TextureError>)
      requires n < |entries| && LoadedPrefix(entries, n)
      modifies this
      ensures Valid()
      ensures r.Ok? ==> LoadedPrefix(entries, n + 1)
      ensures r.Err? ==> !(IdsInsertable(entries) && NamesDistinct(entries))
      ensures r.Err? ==> r.error == IndexOutOfRange || r.error == DuplicateBlockName
    {
      var entry := entries[n];
      var faces := ReadFaces(entry.faceSpecs);
      ghost var before, beforeIndices := blocks, blockIndices;
      r := RegisterBlock(entry.id, entry.name, faces);
      if r.Err? {
        LoadFailsAt(entries, n, before, beforeIndices);
        return;
      }
      LoadedStep(entries, n, before, beforeIndices);
    }

    /** What a load that registered every entry has built. */
    lemma LoadComplete(entries: seq<BlockEntry>)
      requires LoadedPrefix(entries, |entries|)
      ensures IdsInsertable(entries) && NamesDistinct(entries)
      ensures |blocks| == |entries| && LoadedTables(entries) == Some(blocks)
      ensures forall k :: 0 <= k < |entries| ==>
        entries[k].name in blockIndices && blockIndices[entries[k].name] == entries[k].id
      ensures blockIndices.Keys == EntryNames(entries)
      ensures (forall k :: 0 <= k < |entries| ==> entries[k].id == k) ==>
        forall k, d, c :: 0 <= k < |entries| && 0 <= d < 6 && 0 <= c < 4 ==>
          UvByName(entries[k].name, d, c) == Ok(AtlasFaceToUv(FacesOf(entries[k].faceSpecs)[d], c).value)
    {
      assert entries[..|entries|] == entries;
      if forall k :: 0 <= k < |entries| ==> entries[k].id == k {
        InOrderCorners(entries, blocks);
      }
    }

    /**
     * `Initialize` without the XML reader: an empty table, then each
     * `<block>` element in document order; the first failing registration
     * ends the load. It succeeds exactly when every id is in range at its
     * turn and no name repeats.
     */
    method Initialize(entries: seq<BlockEntry>) returns (r: Result<(), TextureError>)
      modifies this
      ensures Valid()
      ensures r.Ok? <==> IdsInsertable(entries) && NamesDistinct(entries)
      ensures r.Err? ==> r.error == IndexOutOfRange || r.error == DuplicateBlockName
      ensures r.Ok? ==> |blocks| == |entries| && LoadedTables(entries) == Some(blocks)
      ensures r.Ok? ==> forall k :: 0 <= k < |entries| ==>
        entries[k].name in blockIndices && blockIndices[entries[k].name] == entries[k].id
      ensures r.Ok? ==> blockIndices.Keys == EntryNames(entries)
      ensures r.Ok? && (forall k :: 0 <= k < |entries| ==> entries[k].id == k) ==>
        forall k, d, c :: 0 <= k < |entries| && 0 <= d < 6 && 0 <= c < 4 ==>
          UvByName(entries[k].name, d, c) == Ok(AtlasFaceToUv(FacesOf(entries[k].faceSpecs)[d], c).value)
    {
      blocks := [];
      blockIndices := map[];
      assert entries[..0] == [];
      var n := 0;
      while n < |entries|
        invariant LoadedPrefix(entries, n)
      {
        var loaded := LoadBlock(entries, n);
        if loaded.Err? {
          return loaded;
        }
        n := n + 1;
      }
      LoadComplete(entries);
      r := Ok(());
    }
  }
}
