/**
 * A 16x256x16 column of voxels (scripts/World/Chunk.cs), stored in a
 * three-dimensional array in [y, x, z] order and written in place through
 * its indexers.
 */
module Chunks {
  import opened Globals
  import opened WorldPositions
  import opened Voxels

  /** The cell (x, y, z) exists in a chunk. */
  predicate InChunk(x: int, y: int, z: int) {
    0 <= x < ChunkSize && 0 <= y < ChunkHeight && 0 <= z < ChunkSize
  }

  class Chunk {
    const position: WorldPosition
    /** All voxels of the chunk, in YXZ order. */
    const voxels: array3<Voxel>

    /** The array has the chunk's extent: ChunkHeight x ChunkSize x ChunkSize. */
    predicate Valid() {
      voxels.Length0 == ChunkHeight && voxels.Length1 == ChunkSize && voxels.Length2 == ChunkSize
    }

    /** The voxel at local (x, y, z). */
    function Cell(x: int, y: int, z: int): Voxel
      reads voxels
      requires Valid() && InChunk(x, y, z)
    {
      voxels[y, x, z]
    }

    /** A new chunk keeps its position and owns a fresh, correctly sized array. */
    constructor (position: WorldPosition)
      ensures Valid() && fresh(voxels)
      ensures this.position == position
    {
      this.position := position;
      voxels := new Voxel[ChunkHeight, ChunkSize, ChunkSize];
    }

    /** `this[int x, int y, int z]` (get): reads array cell [y, x, z]. */
    method Get(x: int, y: int, z: int) returns (v: Voxel)
      requires Valid() && InChunk(x, y, z)
      ensures v == voxels[y, x, z]
    {
      v := voxels[y, x, z];
    }

    /** `this[int x, int y, int z]` (set): writes cell [y, x, z] and no other. */
    method Set(x: int, y: int, z: int, v: Voxel)
      requires Valid() && InChunk(x, y, z)
      modifies voxels
      ensures Cell(x, y, z) == v
      ensures forall y', x', z' :: InChunk(x', y', z') && (x', y', z') != (x, y, z) ==>
        Cell(x', y', z') == old(Cell(x', y', z'))
    {
      voxels[y, x, z] := v;
    }

    /** `this[Vector3]` (get): the components are truncated to integers. */
    method GetAtVector(p: Vector3) returns (v: Voxel)
      requires Valid() && InChunk(Truncate(p.x), Truncate(p.y), Truncate(p.z))
      ensures v == Cell(Truncate(p.x), Truncate(p.y), Truncate(p.z))
    {
      v := voxels[Truncate(p.y), Truncate(p.x), Truncate(p.z)];
    }

    /** `this[Vector3]` (set). */
    method SetAtVector(p: Vector3, v: Voxel)
      requires Valid() && InChunk(Truncate(p.x), Truncate(p.y), Truncate(p.z))
      modifies voxels
      ensures Cell(Truncate(p.x), Truncate(p.y), Truncate(p.z)) == v
      ensures forall y', x', z' :: InChunk(x', y', z') && (x', y', z') != (Truncate(p.x), Truncate(p.y), Truncate(p.z)) ==>
        Cell(x', y', z') == old(Cell(x', y', z'))
    {
      voxels[Truncate(p.y), Truncate(p.x), Truncate(p.z)] := v;
    }

    /**
     * `this[WorldPosition]` (get): addresses the local block part; for a
     * block position that is exactly cell (bx, y, bz).
     */
    method GetAtPosition(p: WorldPosition) returns (v: Voxel)
      requires Valid() && InChunk(Truncate(p.bx), Truncate(p.y), Truncate(p.bz))
      ensures v == Cell(Truncate(p.bx), Truncate(p.y), Truncate(p.bz))
      ensures p.Valid() && p.isBlock ==> v == Cell(p.bx.Floor, p.y.Floor, p.bz.Floor)
    {
      TruncateProperties(p.bx);
      TruncateProperties(p.y);
      TruncateProperties(p.bz);
      v := GetAtVector(BlockPositionVector(p));
    }

    /** `this[WorldPosition]` (set). */
    method SetAtPosition(p: WorldPosition, v: Voxel)
      requires Valid() && InChunk(Truncate(p.bx), Truncate(p.y), Truncate(p.bz))
      modifies voxels
      ensures Cell(Truncate(p.bx), Truncate(p.y), Truncate(p.bz)) == v
      ensures forall y', x', z' :: InChunk(x', y', z') && (x', y', z') != (Truncate(p.bx), Truncate(p.y), Truncate(p.bz)) ==>
        Cell(x', y', z') == old(Cell(x', y', z'))
    {
      SetAtVector(BlockPositionVector(p), v);
    }
  }
}
