/**
 * The world's addressing scheme (scripts/World/WorldPosition.cs): a chunk
 * pair (cx, cz) plus a local block triple (bx, y, bz). The source stores the
 * local triple as floats; here they are exact reals, and C#'s `(int)` cast is
 * `Truncate`. Equality with a `float.Epsilon` tolerance is exact equality.
 */
module WorldPositions {
  import opened Globals
  import opened Wrappers

  /** C#'s `(int)` conversion of a floating value: truncation toward zero. */
  function Truncate(r: real): int
  {
    if r >= 0.0 then r.Floor else -((-r).Floor)
  }

  predicate IsWhole(r: real) {
    r.Floor as real == r
  }

  /** Truncation rounds toward zero and is the identity on whole numbers. */
  lemma TruncateProperties(r: real)
    ensures IsWhole(Truncate(r) as real)
    ensures r >= 0.0 ==> 0.0 <= Truncate(r) as real <= r < Truncate(r) as real + 1.0
    ensures r < 0.0 ==> Truncate(r) as real - 1.0 < r <= Truncate(r) as real <= 0.0
    ensures IsWhole(r) ==> Truncate(r) as real == r
  {
  }

  datatype PositionError = BlockOutsideChunk | NotABlock

  /**
   * A world position. `isBlock` marks block positions, whose local
   * components are whole numbers.
   */
  datatype WorldPosition = WorldPosition(isBlock: bool, cx: int, cz: int, y: real, bx: real, bz: real)
  {
    /** What every constructor of the struct guarantees. */
    predicate Valid() {
      0.0 <= bx < ChunkSize as real && 0.0 <= bz < ChunkSize as real &&
      (isBlock ==> IsWhole(bx) && IsWhole(y) && IsWhole(bz))
    }
  }

  /** `WorldPosition.Zero`: the origin, as a block position. */
  const Zero := WorldPosition(true, 0, 0, 0.0, 0.0, 0.0)

  /**
   * The six-argument constructor: rejects a local horizontal coordinate
   * outside [0, ChunkSize); a block position keeps the truncated local
   * coordinates, any other position keeps them as given.
   */
  function NewPosition(cx: int, bx: real, y: real, cz: int, bz: real, isBlock: bool): (r: Result<WorldPosition, PositionError>)
    ensures r.Err? <==> bx < 0.0 || bx >= 16.0 || bz < 0.0 || bz >= 16.0
    ensures r.Err? ==> r.error == BlockOutsideChunk
    ensures r.Ok? ==> r.value.Valid()
    ensures r.Ok? ==> r.value.cx == cx && r.value.cz == cz && r.value.isBlock == isBlock
    ensures r.Ok? && isBlock ==>
      r.value.bx.Floor == Truncate(bx) && r.value.y.Floor == Truncate(y) && r.value.bz.Floor == Truncate(bz)
    ensures r.Ok? && !isBlock ==> r.value.bx == bx && r.value.y == y && r.value.bz == bz
    ensures r.Ok? && IsWhole(bx) && IsWhole(y) && IsWhole(bz) ==>
      r.value.bx == bx && r.value.y == y && r.value.bz == bz
  {
    if bx < 0.0 || bx >= ChunkSize as real || bz < 0.0 || bz >= ChunkSize as real then
      Err(BlockOutsideChunk)
    else
      TruncateProperties(bx);
      TruncateProperties(y);
      TruncateProperties(bz);
      if isBlock then
        Ok(WorldPosition(true, cx, cz, Truncate(y) as real, Truncate(bx) as real, Truncate(bz) as real))
      else
        Ok(WorldPosition(false, cx, cz, y, bx, bz))
  }

  /** The two-argument constructor: a chunk-only position with a zero local part. */
  function ChunkOnly(cx: int, cz: int): (p: WorldPosition)
    ensures p.Valid() && !p.isBlock
    ensures p.cx == cx && p.cz == cz
    ensures p.bx == 0.0 && p.y == 0.0 && p.bz == 0.0
  {
    WorldPosition(false, cx, cz, 0.0, 0.0, 0.0)
  }

  /** `operator ==`: all five coordinates agree; the block flag is not compared. */
  predicate Equal(a: WorldPosition, b: WorldPosition)
    ensures Equal(a, b) <==> a.(isBlock := b.isBlock) == b
  {
    a.cx == b.cx && a.bx == b.bx && a.y == b.y && a.cz == b.cz && a.bz == b.bz
  }

  /**
   * Equal is an equivalence that differs from structural equality only in
   * the block flag; in particular the chunk-only origin equals Zero.
   */
  lemma EqualIgnoresBlockFlag(a: WorldPosition, b: WorldPosition)
    ensures Equal(a, b) <==> a.(isBlock := b.isBlock) == b
    ensures Equal(a, a) && (Equal(a, b) ==> Equal(b, a))
    ensures Equal(ChunkOnly(0, 0), Zero) && ChunkOnly(0, 0) != Zero
  {
  }

  /**
   * `ChunkPosition(center)`: the chunk coordinate relative to `center`. The
   * source recurses once through `center.ChunkPosition(Zero)`, which stops
   * because Zero equals itself.
   */
  function ChunkPosition(p: WorldPosition, center: WorldPosition): (r: Vector3)
    ensures r == Vector3((p.cx - center.cx) as real, 0.0, (p.cz - center.cz) as real)
    ensures Equal(center, Zero) ==> r == Vector3(p.cx as real, 0.0, p.cz as real)
    decreases if Equal(center, Zero) then 0 else 1
  {
    if Equal(center, Zero) then
      Vector3(p.cx as real, 0.0, p.cz as real)
    else
      Vector3(p.cx as real, 0.0, p.cz as real).Minus(ChunkPosition(center, Zero))
  }

  /** `BlockPositionVector()`: the local triple as a vector. */
  function BlockPositionVector(p: WorldPosition): (r: Vector3)
    ensures p.Valid() ==> 0.0 <= r.x < ChunkSize as real && 0.0 <= r.z < ChunkSize as real
    ensures p.Valid() && p.isBlock ==> IsWhole(r.x) && IsWhole(r.y) && IsWhole(r.z)
    ensures Absolute(p) == Vector3((p.cx * ChunkSize) as real + r.x, r.y, (p.cz * ChunkSize) as real + r.z)
  {
    Vector3(p.bx, p.y, p.bz)
  }

  /**
   * `BlockPosition()`: the same local part in chunk (0, 0). Re-running the
   * constructor always succeeds and changes no local component.
   */
  function BlockPosition(p: WorldPosition): (r: WorldPosition)
    requires p.Valid()
    ensures NewPosition(0, p.bx, p.y, 0, p.bz, p.isBlock) == Ok(r)
    ensures r.Valid() && r.cx == 0 && r.cz == 0 && r.isBlock == p.isBlock
    ensures BlockPositionVector(r) == BlockPositionVector(p)
  {
    NewPosition(0, p.bx, p.y, 0, p.bz, p.isBlock).value
  }

  /**
   * `Translation(center)`: chunk offset times ChunkSize plus the local part,
   * with X and Z negated because Godot's horizontal axes are mirrored.
   */
  function Translation(p: WorldPosition, center: WorldPosition): (r: Vector3)
    ensures r.x == -(((p.cx - center.cx) * ChunkSize) as real + p.bx)
    ensures r.y == p.y
    ensures r.z == -(((p.cz - center.cz) * ChunkSize) as real + p.bz)
  {
    var chunkPos := ChunkPosition(p, center).Scale(ChunkSize as real);
    var blockPos := BlockPositionVector(p);
    var combined := chunkPos.Plus(blockPos);
    Vector3(-combined.x, combined.y, -combined.z)
  }

  /** The world-absolute block coordinate, in the world's own axes. */
  function Absolute(p: WorldPosition): Vector3 {
    Vector3((p.cx * ChunkSize) as real + p.bx, p.y, (p.cz * ChunkSize) as real + p.bz)
  }

  /** Two valid block positions with the same absolute coordinate are the same position. */
  lemma AbsoluteInjective(p: WorldPosition, q: WorldPosition)
    requires p.Valid() && q.Valid() && p.isBlock == q.isBlock
    requires Absolute(p) == Absolute(q)
    ensures p == q
  {
    var dx, dz := p.cx - q.cx, p.cz - q.cz;
    assert (dx * ChunkSize) as real == q.bx - p.bx;
    assert (dz * ChunkSize) as real == q.bz - p.bz;
    assert -ChunkSize < dx * ChunkSize < ChunkSize;
    assert -ChunkSize < dz * ChunkSize < ChunkSize;
    assert dx == 0 && dz == 0;
  }

  /** The result of `AdjacentBlock`: the stepped position and whether 0 <= y < ChunkHeight. */
  datatype Adjacent = Adjacent(inBounds: bool, pos: WorldPosition)

  /** Whole numbers stay whole when shifted by a whole number. */
  lemma WholeShift(r: real, k: int)
    ensures IsWhole(r) ==> IsWhole(r + k as real)
  {
    assert (r + k as real).Floor == r.Floor + k;
  }

  /**
   * The local step of `AdjacentBlock` before any carry: one unit along the
   * axis of the direction, which is exactly `ToVector(direction)`.
   */
  function LocalStep(p: WorldPosition, d: WorldDirection): (r: Vector3)
    ensures r == BlockPositionVector(p).Plus(ToVector(d))
    ensures IsWhole(p.bx) && IsWhole(p.y) && IsWhole(p.bz) ==> IsWhole(r.x) && IsWhole(r.y) && IsWhole(r.z)
  {
    match d
    case Forward => WholeShift(p.bz, 1); Vector3(p.bx, p.y, p.bz + 1.0)
    case Backward => WholeShift(p.bz, -1); Vector3(p.bx, p.y, p.bz - 1.0)
    case Left => WholeShift(p.bx, 1); Vector3(p.bx + 1.0, p.y, p.bz)
    case Right => WholeShift(p.bx, -1); Vector3(p.bx - 1.0, p.y, p.bz)
    case Up => WholeShift(p.y, 1); Vector3(p.bx, p.y + 1.0, p.bz)
    case Down => WholeShift(p.y, -1); Vector3(p.bx, p.y - 1.0, p.bz)
  }

  /** Carry or borrow a local coordinate that left [0, ChunkSize) into the chunk coordinate. */
  function Carry(c: int, b: real): (r: (int, real))
    requires -1.0 <= b <= ChunkSize as real
    ensures 0.0 <= r.1 < ChunkSize as real
    ensures (r.0 * ChunkSize) as real + r.1 == (c * ChunkSize) as real + b
    ensures IsWhole(b) ==> IsWhole(r.1)
  {
    if b < 0.0 then WholeShift(b, ChunkSize); (c - 1, b + ChunkSize as real)
    else if b >= ChunkSize as real then WholeShift(b, -ChunkSize); (c + 1, b - ChunkSize as real)
    else (c, b)
  }

  /**
   * `AdjacentBlock(direction, out result)`: a non-block position is an
   * error; otherwise step one unit, carry into the chunk coordinate on the
   * horizontal axes, and report whether the new height is inside the chunk.
   */
  function AdjacentBlock(p: WorldPosition, d: WorldDirection): (r: Result<Adjacent, PositionError>)
    requires p.Valid()
    ensures r.Err? <==> !p.isBlock
    ensures r.Err? ==> r.error == NotABlock
    ensures r.Ok? ==> r.value.pos.Valid() && r.value.pos.isBlock
    ensures r.Ok? ==> (r.value.inBounds <==> 0.0 <= r.value.pos.y < ChunkHeight as real)
    ensures r.Ok? ==> Absolute(r.value.pos) == Absolute(p).Plus(ToVector(d))
  {
    if !p.isBlock then
      Err(NotABlock)
    else
      var step := LocalStep(p, d);
      var (bx, y, bz) := (step.x, step.y, step.z);
      var (cx, bx') := Carry(p.cx, bx);
      var (cz, bz') := Carry(p.cz, bz);
      var result := NewPosition(cx, bx', y, cz, bz', true);
      Ok(Adjacent(y < ChunkHeight as real && y >= 0.0, result.value))
  }

  /**
   * Carry on the horizontal axes: leaving the chunk through its last column
   * enters the next chunk at column 0, and leaving through column 0 enters
   * the previous chunk at its last column; the other coordinates are kept.
   */
  lemma AdjacentCarry(p: WorldPosition, d: WorldDirection)
    requires p.Valid() && p.isBlock
    ensures d == Left && p.bx == 15.0 ==>
      AdjacentBlock(p, d).value.pos == p.(cx := p.cx + 1, bx := 0.0)
    ensures d == Right && p.bx == 0.0 ==>
      AdjacentBlock(p, d).value.pos == p.(cx := p.cx - 1, bx := 15.0)
    ensures d == Forward && p.bz == 15.0 ==>
      AdjacentBlock(p, d).value.pos == p.(cz := p.cz + 1, bz := 0.0)
    ensures d == Backward && p.bz == 0.0 ==>
      AdjacentBlock(p, d).value.pos == p.(cz := p.cz - 1, bz := 15.0)
  {
    var q := AdjacentBlock(p, d).value.pos;
    if d == Left && p.bx == 15.0 {
      AbsoluteInjective(q, p.(cx := p.cx + 1, bx := 0.0));
    } else if d == Right && p.bx == 0.0 {
      AbsoluteInjective(q, p.(cx := p.cx - 1, bx := 15.0));
    } else if d == Forward && p.bz == 15.0 {
      AbsoluteInjective(q, p.(cz := p.cz + 1, bz := 0.0));
    } else if d == Backward && p.bz == 0.0 {
      AbsoluteInjective(q, p.(cz := p.cz - 1, bz := 15.0));
    }
  }

  /**
   * Stepping up or down changes only the height, and the bound is reported
   * at both ends of the column: down from y = 0 and up from y = 255 are out
   * of bounds.
   */
  lemma AdjacentVertical(p: WorldPosition)
    requires p.Valid() && p.isBlock
    ensures AdjacentBlock(p, Up).value.pos == p.(y := p.y + 1.0)
    ensures AdjacentBlock(p, Down).value.pos == p.(y := p.y - 1.0)
    ensures p.y == 0.0 ==> !AdjacentBlock(p, Down).value.inBounds
    ensures p.y == (ChunkHeight - 1) as real ==> !AdjacentBlock(p, Up).value.inBounds
    ensures 0.0 < p.y < (ChunkHeight - 1) as real ==>
      AdjacentBlock(p, Up).value.inBounds && AdjacentBlock(p, Down).value.inBounds
  {
    WholeShift(p.y, 1);
    WholeShift(p.y, -1);
    AbsoluteInjective(AdjacentBlock(p, Up).value.pos, p.(y := p.y + 1.0));
    AbsoluteInjective(AdjacentBlock(p, Down).value.pos, p.(y := p.y - 1.0));
  }

  /**
   * Reversibility: a step followed by the opposite step returns to a
   * position equal to the original, whatever the height.
   */
  lemma AdjacentReversible(p: WorldPosition, d: WorldDirection)
    requires p.Valid() && p.isBlock
    ensures AdjacentBlock(AdjacentBlock(p, d).value.pos, Opposite(d)).Ok?
    ensures AdjacentBlock(AdjacentBlock(p, d).value.pos, Opposite(d)).value.pos == p
    ensures Equal(AdjacentBlock(AdjacentBlock(p, d).value.pos, Opposite(d)).value.pos, p)
  {
    var q := AdjacentBlock(p, d).value.pos;
    var back := AdjacentBlock(q, Opposite(d)).value.pos;
    var v := ToVector(d);
    assert Absolute(q) == Absolute(p).Plus(v);
    assert Absolute(back) == Absolute(q).Plus(v.Negate()) by {
      ToVectorOpposite(d);
    }
    PlusNegate(Absolute(p), v);
    AbsoluteInjective(back, p);
  }
}
