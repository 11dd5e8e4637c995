/**
 * Terrain rules (scripts/World/Terrain/TerrainGenerator.cs). The noise
 * field, the sea level and the two translation helpers are not part of this
 * model; they are the fields of `TerrainConfig`, parameters of the model
 * that the source sets in `TerrainGenerator.Initialize`.
 */
module TerrainRules {
  import opened Globals
  import opened WorldPositions
  import opened Voxels
  import opened Chunks

  /** How far the noise (in [-1, 1] in the engine) moves the surface up or down. */
  const Amplitude: real := 40.0

  /** Block type ids produced by `BlockType`. */
  const Dirt: int := 0
  const Grass: int := 1

  /**
   * The fixed inputs of `BlockSolid`: the initialised noise's `GetNoise2d`,
   * `SeaLevel`, and the `ChunkTranslation` / `BlockTranslation` helpers.
   */
  datatype TerrainConfig = TerrainConfig(
    noise: (real, real) -> real,
    seaLevel: real,
    chunkTranslation: Vector2 -> Vector3,
    blockTranslation: Vector3 -> Vector3)

  /** The terrain height at the horizontal translation of a block. */
  function SurfaceHeight(cfg: TerrainConfig, chunkPosition: Vector2, blockPosition: Vector3): real
  {
    var t := cfg.chunkTranslation(chunkPosition).Plus(cfg.blockTranslation(blockPosition));
    cfg.seaLevel + cfg.noise(t.x, t.z) * Amplitude
  }

  /** `BlockSolid`: a block is solid iff it is at or below the noise-displaced sea level. */
  function BlockSolid(cfg: TerrainConfig, chunkPosition: Vector2, blockPosition: Vector3): bool
  {
    blockPosition.y <= SurfaceHeight(cfg, chunkPosition, blockPosition)
  }

  /**
   * Solid columns: when the block translation's horizontal part does not
   * depend on the height (as for a pure offset), a solid block has only
   * solid blocks below it in the same column. Equal inputs always give equal
   * answers, since the generator is a function of its configuration.
   */
  lemma SolidColumnIsDownwardClosed(cfg: TerrainConfig, c: Vector2, x: real, z: real, lower: real, upper: real)
    requires lower <= upper
    requires cfg.blockTranslation(Vector3(x, lower, z)).x == cfg.blockTranslation(Vector3(x, upper, z)).x
    requires cfg.blockTranslation(Vector3(x, lower, z)).z == cfg.blockTranslation(Vector3(x, upper, z)).z
    ensures BlockSolid(cfg, c, Vector3(x, upper, z)) ==> BlockSolid(cfg, c, Vector3(x, lower, z))
    ensures BlockSolid(cfg, c, Vector3(x, upper, z)) <==> upper <= SurfaceHeight(cfg, c, Vector3(x, lower, z))
  {
    assert SurfaceHeight(cfg, c, Vector3(x, lower, z)) == SurfaceHeight(cfg, c, Vector3(x, upper, z));
  }

  /** The cell `chunk[above]` reads, where `above` is one block higher. */
  predicate AboveIndexable(blockPosition: Vector3) {
    var above := blockPosition.Plus(Vector3(0.0, 1.0, 0.0));
    above.y < ChunkHeight as real ==> InChunk(Truncate(above.x), Truncate(above.y), Truncate(above.z))
  }

  /**
   * `BlockType`: grass (1) when the block above is past the top of the world
   * or not solid, dirt (0) when it is solid. Only reads the chunk.
   */
  function BlockType(chunk: Chunk, isSolid: Voxel -> bool, blockPosition: Vector3): (t: int)
    reads chunk.voxels
    requires chunk.Valid() && AboveIndexable(blockPosition)
    ensures t == Dirt || t == Grass
    ensures blockPosition.y + 1.0 >= ChunkHeight as real ==> t == Grass
    ensures blockPosition.y + 1.0 < ChunkHeight as real ==>
      (t == Dirt <==> isSolid(chunk.Cell(Truncate(blockPosition.x), Truncate(blockPosition.y + 1.0), Truncate(blockPosition.z))))
  {
    var above := blockPosition.Plus(Vector3(0.0, 1.0, 0.0));
    if above.y >= ChunkHeight as real then Grass
    else if isSolid(chunk.Cell(Truncate(above.x), Truncate(above.y), Truncate(above.z))) then Dirt
    else Grass
  }

  /**
   * The typing pass at whole block positions: the top block of the world
   * and a block under air are surface (grass); a block under a solid block
   * is subsurface (dirt).
   */
  lemma BlockTypeAtCell(chunk: Chunk, isSolid: Voxel -> bool, x: int, y: int, z: int)
    requires chunk.Valid() && InChunk(x, y, z)
    ensures AboveIndexable(Vector3(x as real, y as real, z as real))
    ensures y == ChunkHeight - 1 ==> BlockType(chunk, isSolid, Vector3(x as real, y as real, z as real)) == Grass
    ensures y < ChunkHeight - 1 ==>
      BlockType(chunk, isSolid, Vector3(x as real, y as real, z as real)) ==
        (if isSolid(chunk.Cell(x, y + 1, z)) then Dirt else Grass)
  {
    TruncateProperties(x as real);
    TruncateProperties((y + 1) as real);
    TruncateProperties(z as real);
    assert IsWhole(x as real) && IsWhole((y + 1) as real) && IsWhole(z as real);
  }
}
