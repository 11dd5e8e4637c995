/**
 * Voxel records (scripts/World/Voxel.cs). The three constructors only store
 * their arguments, so `VoxelType` and `Voxel` are the datatype constructors
 * themselves; `VoxelGraphics` first checks its array lengths.
 */
module Voxels {
  import opened Globals
  import opened Wrappers
  import opened WorldPositions

  /** Information about a kind of voxel. */
  datatype VoxelType = VoxelType(id: uint32, name: string, isTransparent: bool)

  /** Per-face texture ids and light levels, and per-corner ambient occlusion. */
  datatype VoxelGraphics = VoxelGraphics(textureIds: seq<uint32>, lightLevels: seq<uint32>, ambientOcclusion: seq<bool>)

  /** A one cubic metre voxel. */
  datatype Voxel = Voxel(position: WorldPosition, voxelType: VoxelType, graphics: VoxelGraphics)

  /** The `ArgumentException`s of the VoxelGraphics constructor. */
  datatype GraphicsError = TextureIdsLength | LightLevelsLength | AmbientOcclusionLength

  /** Six faces, six light levels, eight corners. */
  predicate WellFormed(g: VoxelGraphics) {
    |g.textureIds| == 6 && |g.lightLevels| == 6 && |g.ambientOcclusion| == 8
  }

  /**
   * The VoxelGraphics constructor: the lengths are checked in the order
   * texture ids, light levels, ambient occlusion, and the first wrong one is
   * reported; on success the three arrays are stored unchanged.
   */
  function NewVoxelGraphics(textureIds: seq<uint32>, lightLevels: seq<uint32>, ambientOcclusion: seq<bool>): (r: Result<VoxelGraphics, GraphicsError>)
    ensures r.Ok? <==> |textureIds| == 6 && |lightLevels| == 6 && |ambientOcclusion| == 8
    ensures r.Ok? ==> WellFormed(r.value)
    ensures r.Ok? ==> r.value.textureIds == textureIds && r.value.lightLevels == lightLevels
                      && r.value.ambientOcclusion == ambientOcclusion
    ensures r == Err(TextureIdsLength) <==> |textureIds| != 6
    ensures r == Err(LightLevelsLength) <==> |textureIds| == 6 && |lightLevels| != 6
    ensures r == Err(AmbientOcclusionLength) <==>
      |textureIds| == 6 && |lightLevels| == 6 && |ambientOcclusion| != 8
  {
    if |textureIds| != 6 then Err(TextureIdsLength)
    else if |lightLevels| != 6 then Err(LightLevelsLength)
    else if |ambientOcclusion| != 8 then Err(AmbientOcclusionLength)
    else Ok(VoxelGraphics(textureIds, lightLevels, ambientOcclusion))
  }
}
