# Voxel world core, modelled in Dafny

This project models the world-addressing and world-building logic of a small
Godot/C# voxel engine and proves properties of it. The model covers these
parts of the engine:

- **World positions** (`WorldPositions`, from `WorldPosition.cs`). A position is a chunk pair `(cx, cz)` plus a local
  block triple `(bx, y, bz)`. The model covers construction with its bounds check and the block-position truncation,
  `ChunkPosition`, `Translation`, `BlockPosition` and `AdjacentBlock` with its carry into the chunk coordinate, as
  well as `operator ==`.
- **Directions and settings** (`Globals`, from `GlobalVars.cs`). This part covers the six world directions and
  `ToVector`, the chunk dimensions 16 × 256 × 16, and the render and simulation distances with
  `SetRenderDistance`.
- **Chunks** (`Chunks`, from `Chunk.cs`). A class owns a `ChunkHeight × ChunkSize × ChunkSize` array addressed
  `[y, x, z]`, and its three indexers read and write that array in place.
- **Voxels** (`Voxels`, from `Voxel.cs`). `VoxelType` and `Voxel` are plain records. The `VoxelGraphics`
  constructor validates its array lengths.
- **Terrain rules** (`TerrainRules`, from `TerrainGenerator.cs`). `BlockSolid` compares the height with a
  noise-displaced sea level, and `BlockType` is the grass/dirt rule over the block above.
- **Mesh extraction** (`MeshExtraction`, from `ChunkGenerator.cs`). `AdjacentSolid` is the face-culling decision:
  in-chunk neighbour, top and bottom of the world, neighbour chunk with its edge remap, and the window edge.
  `GenerateSurface` is the y/x/z/direction loop nest that emits six vertices per drawn face.
- **Texture table** (`TextureMapping`, from `BlockTextureMapper.cs`). This covers the atlas UV arithmetic, the
  6 × 4 `BlockUv` fill, the "all"/"side"/single face-spec expansion, name and id registration, and both
  `GetUvForFace` lookups.
- **Chunk request queue** (`ChunkBuilding`, from `ChunkBuilder.cs`). A sequential state machine over
  `_requests`, `_isSendingRequests`, `_processing` and `_building`. The worker thread is a synchronous call, and
  each task the worker starts is recorded in an ordered log.
- **World** (`GameWorlds`, from `GameWorld.cs`). `Initialize` allocates the chunk window and queues the first
  request. `Update` delegates to the queue.
- **FPS counter** (`FrameCounters`, from `FrameCounter.cs`). A sliding window of frame times: evict from the
  front, append, count. The clock is a parameter.

Godot's `Vector2`/`Vector3` are datatypes over exact `real`s. C#'s `(int)` cast is `WorldPositions.Truncate`,
which truncates toward zero. Exceptions thrown by the source are `Err` values of a `Result` type, except the
indexing failures listed under "## Left out", which the model states as preconditions instead.

Module map. Each file holds one module and mirrors one source file:

| file | module | source |
|---|---|---|
| wrappers.dfy | Wrappers | (Option/Result) |
| globals.dfy | Globals | scripts/GlobalVars.cs |
| world_position.dfy | WorldPositions | scripts/World/WorldPosition.cs |
| voxel.dfy | Voxels | scripts/World/Voxel.cs |
| chunk.dfy | Chunks | scripts/World/Chunk.cs |
| terrain_generator.dfy | TerrainRules | scripts/World/Terrain/TerrainGenerator.cs |
| chunk_generator.dfy | MeshExtraction | scripts/World/ChunkGenerator.cs |
| block_texture_mapper.dfy | TextureMapping | scripts/Graphics/BlockTextureMapper.cs |
| chunk_builder.dfy | ChunkBuilding | scripts/World/ChunkBuilder.cs |
| game_world.dfy | GameWorlds | scripts/World/GameWorld.cs |
| frame_counter.dfy | FrameCounters | scripts/UI/FrameCounter.cs |

## Model

| member | source | states |
|---|---|---|
| Globals.DirectionOfIndex | scripts/GlobalVars.cs:6-14 | The six directions are numbered 0..5 in declaration order: the direction read from an index has that index. |
| Globals.DirectionIndexInverse | scripts/GlobalVars.cs:6-14 | Conversely, numbering a direction and reading the number back gives the direction, so index and direction are mutually inverse. |
| Globals.ToVector | scripts/GlobalVars.cs:18-38 | Every direction maps to a unit axis vector, and exactly the four horizontal directions map to a vector with y = 0. |
| Globals.ToVectorValues | scripts/GlobalVars.cs:18-38 | Forward→(0,0,1), Backward→(0,0,-1), Left→(1,0,0), Right→(-1,0,0), Up→(0,1,0), Down→(0,-1,0). Each is a unit axis vector, and the horizontal directions are exactly those with y = 0. |
| Globals.ToVectorOpposite | scripts/GlobalVars.cs:23-34 | Opposite directions map to negated vectors. |
| Globals.ToVectorInjective | scripts/GlobalVars.cs:23-34 | The six vectors are pairwise distinct. |
| Globals.GlobalVars.constructor | scripts/GlobalVars.cs:57-64 | RenderDistance starts at 12 and SimDistance at 6, so the settings invariant holds initially. |
| Globals.GlobalVars.SetRenderDistance | scripts/GlobalVars.cs:69-83 | Zero changes nothing. A positive distance becomes RenderDistance, and SimDistance is lowered to it only if it was larger. The invariant 0 < RenderDistance, SimDistance ≤ RenderDistance is preserved. |
| WorldPositions.TruncateProperties | scripts/World/WorldPosition.cs:45-51 | The `(int)` cast rounds toward zero, yields a whole number and is the identity on whole numbers. |
| WorldPositions.NewPosition | scripts/World/WorldPosition.cs:32-58 | Fails with BlockOutsideChunk iff bx or bz lies outside [0, 16). On success the chunk coordinates and the flag are kept. A block position stores the truncated y, bx, bz; any other position stores them unchanged. |
| WorldPositions.ChunkOnly | scripts/World/WorldPosition.cs:66-73 | The two-argument constructor gives a valid non-block position with the given chunk coordinates and a zero local part (bx = y = bz = 0). |
| WorldPositions.Equal | scripts/World/WorldPosition.cs:205-216 | `==` holds iff the two positions become identical once the block flag of the first is replaced by that of the second. |
| WorldPositions.EqualIgnoresBlockFlag | scripts/World/WorldPosition.cs:205-216 | `==` holds iff all five coordinates agree, whatever the block flags. It is reflexive and symmetric, and `new WorldPosition(0,0) == Zero` although the two differ in IsBlock. |
| WorldPositions.ChunkPosition | scripts/World/WorldPosition.cs:80-89 | Equals (cx − center.cx, 0, cz − center.cz), and equals (cx, 0, cz) when the center is Zero. The recursion through `center.ChunkPosition(Zero)` terminates. |
| WorldPositions.BlockPositionVector | scripts/World/WorldPosition.cs:94-97 | The local vector (bx, y, bz). On a valid position bx and bz lie in [0, 16), and on a block position all three are whole. Added to the chunk origin (cx·16, 0, cz·16) it gives the world-absolute position. |
| WorldPositions.BlockPosition | scripts/World/WorldPosition.cs:103-106 | Re-running the constructor in chunk (0, 0) always succeeds and keeps the local vector and the flag. |
| WorldPositions.Translation | scripts/World/WorldPosition.cs:114-124 | Equals (−((cx−ccx)·16 + bx), y, −((cz−ccz)·16 + bz)). |
| WorldPositions.LocalStep | scripts/World/WorldPosition.cs:142-166 | Before any carry, the switch adds exactly `ToVector(direction)` to the local vector, and it keeps whole coordinates whole. |
| WorldPositions.Carry | scripts/World/WorldPosition.cs:172-192 | A local coordinate in [−1, 16] is brought back into [0, 16) while chunk·16 + local is kept, and whole values stay whole. |
| WorldPositions.AdjacentBlock | scripts/World/WorldPosition.cs:132-197 | A non-block position is the NotABlock error. Otherwise the result is a valid block position one unit away in world-absolute terms, and the returned flag is true iff 0 ≤ y′ < 256. |
| WorldPositions.AdjacentCarry | scripts/World/WorldPosition.cs:172-192 | Left from bx = 15 gives bx = 0 and cx + 1. Right from bx = 0 gives bx = 15 and cx − 1. Forward and Backward do the same on bz and cz; nothing else changes. |
| WorldPositions.AdjacentVertical | scripts/World/WorldPosition.cs:158-196 | Up and Down change only y. Down from y = 0 and Up from y = 255 are reported out of bounds; steps from any y strictly between are in bounds. |
| WorldPositions.AdjacentReversible | scripts/World/WorldPosition.cs:144-194 | Stepping in a direction and then its opposite returns exactly the original position, so it is also `==` to it. |
| Chunks.Chunk.constructor | scripts/World/Chunk.cs:18-22 | The chunk keeps its position and owns a fresh 256 × 16 × 16 array. |
| Chunks.Chunk.Get | scripts/World/Chunk.cs:38-42 | `this[x, y, z]` reads array cell [y, x, z]. |
| Chunks.Chunk.Set | scripts/World/Chunk.cs:38-42 | After `this[x, y, z] = v`, cell (x, y, z) holds v and every other cell is unchanged. |
| Chunks.Chunk.GetAtVector | scripts/World/Chunk.cs:32-36 | The vector indexer reads the cell at the truncated components. |
| Chunks.Chunk.SetAtVector | scripts/World/Chunk.cs:32-36 | The vector indexer writes the cell at the truncated components and no other. |
| Chunks.Chunk.GetAtPosition | scripts/World/Chunk.cs:26-30 | The WorldPosition indexer reads the cell at the truncated local block part. For a block position that is cell (bx, y, bz). |
| Chunks.Chunk.SetAtPosition | scripts/World/Chunk.cs:26-30 | The WorldPosition indexer writes that cell and no other. |
| Voxels.NewVoxelGraphics | scripts/World/Voxel.cs:56-71 | Succeeds iff the lengths are 6, 6 and 8. The first wrong length in the order textures, light, occlusion names the error. On success the three arrays are stored unchanged. |
| TerrainRules.SolidColumnIsDownwardClosed | scripts/World/Terrain/TerrainGenerator.cs:30-39 | States `BlockSolid`, which has no contract of its own. A block is solid iff y ≤ SeaLevel + noise·40. When the translation's horizontal part does not depend on y, a solid block has only solid blocks below it. |
| TerrainRules.BlockType | scripts/World/Terrain/TerrainGenerator.cs:41-50 | Always 0 or 1. It is grass (1) when the block above is at or past ChunkHeight. Otherwise it is dirt (0) iff the block above is solid. It only reads the chunk. |
| TerrainRules.BlockTypeAtCell | scripts/World/Terrain/TerrainGenerator.cs:45-49 | At whole block positions the lookup `chunk[above]` is in range. The top block is grass, and every other block is dirt iff cell (x, y+1, z) is solid. |
| MeshExtraction.BlockVectorIsToVector | scripts/World/ChunkGenerator.cs:66-81 | The block direction constants used by the culling test are the `ToVector` vectors. |
| MeshExtraction.AddFaceShape | scripts/World/ChunkGenerator.cs:127-197 | States `AddFace`, which has no contract of its own. A face is six vertices in two triangles sharing the top-left/bottom-right diagonal. Each vertex carries its corner's UV, and all four corners are used. |
| MeshExtraction.VerticesLength | scripts/World/ChunkGenerator.cs:172-196 | The vertex buffer has exactly six vertices per emitted face. |
| MeshExtraction.BlockSurface | scripts/World/ChunkGenerator.cs:32-39 | The direction loop emits the vertices of the faces whose neighbour is not solid, in enum order. |
| MeshExtraction.ColumnSurface | scripts/World/ChunkGenerator.cs:26-40 | The z loop skips air and appends each solid block's faces. |
| MeshExtraction.LayerSurface | scripts/World/ChunkGenerator.cs:24-41 | The x loop appends the faces of every column of one layer. |
| MeshExtraction.GenerateSurface | scripts/World/ChunkGenerator.cs:15-47 | The y loop's output is the vertex buffer of all emitted faces, in emission order. |
| MeshExtraction.DirFacesMembership | scripts/World/ChunkGenerator.cs:32-39 | A block's emitted faces are exactly its directions whose neighbour is not solid. |
| MeshExtraction.ColumnFacesMembership | scripts/World/ChunkGenerator.cs:26-40 | A column emits exactly the drawn faces of its 16 blocks. |
| MeshExtraction.RowFacesMembership | scripts/World/ChunkGenerator.cs:24-41 | A layer emits exactly the drawn faces of its 16 × 16 blocks. |
| MeshExtraction.LayerFacesMembership | scripts/World/ChunkGenerator.cs:22-42 | The whole chunk emits exactly the drawn faces of its blocks. |
| MeshExtraction.SurfaceIsVisibleFaces | scripts/World/ChunkGenerator.cs:22-40 | A face is emitted iff it is in the chunk, its block is solid and its neighbour is not. No face is emitted twice, and there are six vertices per emitted face, so the buffer has exactly six vertices for each visible face. |
| MeshExtraction.DirFacesDistinct | scripts/World/ChunkGenerator.cs:32-39 | The direction loop emits each face of a block at most once. |
| MeshExtraction.ColumnFacesDistinct | scripts/World/ChunkGenerator.cs:26-40 | The z loop emits no face twice, because faces of different blocks differ in z. |
| MeshExtraction.RowFacesDistinct | scripts/World/ChunkGenerator.cs:24-41 | The x loop emits no face twice, because faces of different columns differ in x. |
| MeshExtraction.LayerFacesDistinct | scripts/World/ChunkGenerator.cs:22-42 | The y loop emits no face twice, because faces of different layers differ in y. |
| MeshExtraction.InChunkNeighbour | scripts/World/ChunkGenerator.cs:49-125 | With `VerticalEdgeAlwaysDrawn` and `HorizontalExit`, states `AdjacentSolid`, which has no contract of its own. When the neighbour is inside the chunk, a face is drawn iff its block is solid and that neighbour is not. |
| MeshExtraction.VerticalEdgeAlwaysDrawn | scripts/World/ChunkGenerator.cs:59-63 | Faces looking past the top or the bottom of the world are drawn whenever their block is solid. |
| MeshExtraction.HorizontalExit | scripts/World/ChunkGenerator.cs:66-121 | A neighbour grid index outside [0, 2·RenderDistance) hides the face. Otherwise the neighbour chunk's block at the opposite edge decides, with the other two coordinates kept. |
| MeshExtraction.SharedEdgeSymmetry | scripts/World/ChunkGenerator.cs:75-114 | The Left test from chunk (i, j) and the Right test from (i+1, j) read each other's edge blocks, so at most one of the two faces is drawn. |
| MeshExtraction.FlatFloorSurface | scripts/World/ChunkGenerator.cs:22-124 | If every resident chunk is solid exactly at y = 0, a chunk emits exactly the top and bottom faces of its floor. |
| TextureMapping.AtlasFaceToUv | scripts/Graphics/BlockTextureMapper.cs:161-176 | Fails with InvalidCorner iff the corner is not 0..3. Otherwise it returns that corner of the cell inset by the margin: top left, then clockwise. |
| TextureMapping.CornerPixelOffsets | scripts/Graphics/BlockTextureMapper.cs:163-173 | The corners sit at pixels pos·20 + (2,2), (18,2), (18,18), (2,18), divided by 1280. |
| TextureMapping.CornerInsideCell | scripts/Graphics/BlockTextureMapper.cs:53-64 | Every corner lies strictly inside its 20-pixel cell. |
| TextureMapping.CornersClockwise | scripts/Graphics/BlockTextureMapper.cs:9-18 | Consecutive corners differ in exactly one coordinate and run right, down, left, up. |
| TextureMapping.InsetCellsDisjoint | scripts/Graphics/BlockTextureMapper.cs:161-176 | The inset rectangles of two different grid cells do not overlap. |
| TextureMapping.BlockUvCorners | scripts/Graphics/BlockTextureMapper.cs:31-46 | The table has 6 faces of 4 corners, and Faces[i].Corners[j] is corner j of face i's inset cell. |
| TextureMapping.NewBlockUv | scripts/Graphics/BlockTextureMapper.cs:31-46 | The nested array fill builds exactly the table with Faces[i].Corners[j] = AtlasFaceToUv(coords[i], j). |
| TextureMapping.SideCoversHorizontal | scripts/Graphics/BlockTextureMapper.cs:115-118 | "side" sets exactly the four horizontal faces. |
| TextureMapping.ExpandFaceSpec | scripts/Graphics/BlockTextureMapper.cs:108-123 | "all" sets six faces, "side" sets faces 0-3 and a single face sets only itself; every other face is unchanged. |
| TextureMapping.ApplyFaceSpec | scripts/Graphics/BlockTextureMapper.cs:110-123 | The in-place array writes give exactly that expansion. |
| TextureMapping.FacesOf | scripts/Graphics/BlockTextureMapper.cs:108-123 | A block's face elements, applied in order from six zero vectors, give six coordinates. `LastSpecWins` states which value each face holds. |
| TextureMapping.ReadFaces | scripts/Graphics/BlockTextureMapper.cs:91-125 | The loop over a block's face elements, writing the `faces` array in place, ends with exactly `FacesOf` of those elements. |
| TextureMapping.LastSpecWins | scripts/Graphics/BlockTextureMapper.cs:99-125 | After a block's face elements, each face holds the coordinate of the last element covering it, or zero if none covers it. |
| TextureMapping.InOrderTables | scripts/Graphics/BlockTextureMapper.cs:132-136 | When the ids are 0, 1, 2, … in document order, table k is built from entry k's face elements. |
| TextureMapping.InOrderCorners | scripts/Graphics/BlockTextureMapper.cs:132-136 | With in-order ids, corner c of face d of table k is `AtlasFaceToUv` of entry k's face d. |
| TextureMapping.InsertShiftsRegisteredTable | scripts/Graphics/BlockTextureMapper.cs:135-136 | With out-of-order ids, `Insert` moves an already registered table while its name keeps the old id. After "a" and then "b" both with id 0, the tables are [b's, a's], so position 0, which "a" maps to, holds b's table rather than a's. |
| TextureMapping.BlockTextureMapper.constructor | scripts/Graphics/BlockTextureMapper.cs:71-72 | Both tables start empty. |
| TextureMapping.BlockTextureMapper.UvById | scripts/Graphics/BlockTextureMapper.cs:151-154 | Returns `_blocks[id].Faces[dir].Corners[corner]` iff all three indices are in range, and IndexOutOfRange otherwise. On a valid table, ids below the count with dir < 6 and corner < 4 always succeed. |
| TextureMapping.BlockTextureMapper.UvByName | scripts/Graphics/BlockTextureMapper.cs:143-149 | An unknown name is UnknownBlockName. A known name gives the id lookup of its id, which succeeds for in-range faces and corners. |
| TextureMapping.BlockTextureMapper.RegisterBlock | scripts/Graphics/BlockTextureMapper.cs:132-137 | `Insert` rejects an id past the end and otherwise shifts the later blocks. `Add` then rejects a known name after the insert, or maps name → id. After success, both lookups return AtlasFaceToUv of the block's faces. |
| TextureMapping.LoadedTablesDefined | scripts/Graphics/BlockTextureMapper.cs:135 | Every `Insert` finds its id in range (entry k's id in [0, k]) exactly when the reference tables exist, and then there is one table per entry. |
| TextureMapping.LoadFailsAt | scripts/Graphics/BlockTextureMapper.cs:132-137 | A registration that throws at entry n, because its id is past the end of the list or its name was already added, means the ids are not all insertable or the names are not distinct. |
| TextureMapping.BlockTextureMapper.LoadBlock | scripts/Graphics/BlockTextureMapper.cs:90-137 | One `<block>` element: its faces are read and it is registered. On success the loaded prefix grows by that entry. On failure the error is IndexOutOfRange or DuplicateBlockName, and the whole load cannot succeed. |
| TextureMapping.BlockTextureMapper.Initialize | scripts/Graphics/BlockTextureMapper.cs:69-141 | Loading succeeds exactly when every id is in range at its turn (entry k's id in [0, k]) and no name repeats. Otherwise it fails with IndexOutOfRange or DuplicateBlockName. Loading keeps every table well shaped. On success there is one table per entry, the tables are those of inserting each entry's table at its id in document order, and the name map holds exactly the entries' names, each mapped to its id, so any other name is unknown. When the ids are 0, 1, 2, … in order, looking up an entry's name gives `AtlasFaceToUv` of that entry's face coordinates. |
| ChunkBuilding.GenerateOrder | scripts/World/ChunkBuilder.cs:128-131 | Phase one generates every request once, first to last. |
| ChunkBuilding.BuildOrder | scripts/World/ChunkBuilder.cs:138-142 | Phase two builds every request once, last to first. |
| ChunkBuilding.GenerateBeforeBuild | scripts/World/ChunkBuilder.cs:126-142 | No BuildChunk precedes a GenerateChunk, and each request in the batch gets both tasks. |
| ChunkBuilding.ChunkBuilder.constructor | scripts/World/ChunkBuilder.cs:52-67 | The static fields start empty or false. |
| ChunkBuilding.ChunkBuilder.QueueRequest | scripts/World/ChunkBuilder.cs:74-86 | The first request of a batch replaces the pending list; later ones are appended. The accepting flag is set afterwards. |
| ChunkBuilding.ChunkBuilder.SendRequests | scripts/World/ChunkBuilder.cs:92-96 | Only the accepting flag is cleared. |
| ChunkBuilding.ChunkBuilder.Update | scripts/World/ChunkBuilder.cs:98-110 | A build starts iff not accepting, pending is non-empty and not building. It then sets building, empties pending and runs the batch's tasks in order; otherwise nothing changes. Building, once set, stays set. |
| ChunkBuilding.ChunkBuilder.StartBuilding | scripts/World/ChunkBuilder.cs:112-143 | Moves the whole pending list to processing and runs phase one then phase two, removing each entry after its build. Pending and processing both end empty. |
| GameWorlds.GameWorld.Initialize | scripts/World/GameWorld.cs:11-20 | The center is Zero, and the window is a fresh 2R × 2R grid of empty slots. The queue's pending list ends with the request for chunk (0, 0), which is the only entry when no batch was open, and the queue is not accepting. |
| GameWorlds.GameWorld.Update | scripts/World/GameWorld.cs:22-25 | Exactly the queue's Update. |
| GameWorlds.Startup | scripts/World/GameWorld.cs:11-25 | From the initial settings and queue, Initialize then Update generates and then builds chunk (0, 0), and leaves the queue busy with nothing pending. |
| FrameCounters.Evict | scripts/UI/FrameCounter.cs:24-27 | The survivors are a suffix of the list. Its front is above the threshold, and everything removed was at or below it. |
| FrameCounters.Step | scripts/UI/FrameCounter.cs:24-29 | The new time is the last element, preceded by the eviction's survivors. |
| FrameCounters.WrappedThreshold | scripts/UI/FrameCounter.cs:21-24 | `time − 1000` on the unsigned tick count: exact from 1000 ms on, wrapped to time − 1000 + 2^64 before. |
| FrameCounters.StepAsWritten | scripts/UI/FrameCounter.cs:21-29 | The step with the wrapped threshold. |
| FrameCounters.FirstSecondUndercount | scripts/UI/FrameCounter.cs:24 | At 600 ms with a frame from 500 ms, the written step reports 1 frame where the intended step reports 2. |
| FrameCounters.AsWrittenFirstSecond | scripts/UI/FrameCounter.cs:24-27 | During the first second the written step drops every earlier frame. |
| FrameCounters.AsWrittenAgreesAfterFirstSecond | scripts/UI/FrameCounter.cs:24-27 | From 1000 ms on, the written and the intended steps agree. |
| FrameCounters.StepKeepsSuffix | scripts/UI/FrameCounter.cs:24-29 | Entries leave only from the front, and the survivors keep their order. |
| FrameCounters.EvictSortedAbove | scripts/UI/FrameCounter.cs:24-27 | On a sorted list every survivor is above the threshold. |
| FrameCounters.StepKeepsSorted | scripts/UI/FrameCounter.cs:24-29 | With a nondecreasing clock the list stays sorted. |
| FrameCounters.StepWindowBound | scripts/UI/FrameCounter.cs:24-29 | After a step at time t on a sorted list, every entry is newer than t − 1000. |
| FrameCounters.FrameCounter.constructor | scripts/UI/FrameCounter.cs:9-10 | The list starts empty and the rate at zero. |
| FrameCounters.FrameCounter.Process | scripts/UI/FrameCounter.cs:19-30 | The loop evicts from the front, then the time is appended, and fps is the new length, at least 1. |

## Left out

- Threads, the lock and the Godot prints of `ChunkBuilder`. The worker start is a synchronous call. The `GenerateChunk`/`BuildChunk` stubs only print, so the model records them in a task log.
- `ChunkBuilding.ChunkBuilder.Update`: nothing in the source ever resets `_building`, and the model keeps that as written, so a second batch is never built.
- `AddFace` vertex positions, which are float rotations by multiples of π/2. The `SurfaceTool`, normals, tangents and `ColorForBlockFace` (not defined in ChunkGenerator.cs or BlockTextureMapper.cs) are left out too. Vertices record their face, corner and UV instead of a position.
- `MeshExtraction.GenerateSurface`: blocks are reduced to their solidity, because the `Block` type with `.Solid` and the `BlockUp`… constants are not part of this model. The direction vectors follow from the neighbour offsets and the edge remapping. A missing (null) chunk in the window is not modelled: every window slot holds a solidity function. The nested loops are split into one method per loop level.
- `VectorFromDirection` (scripts/World/ChunkGenerator.cs:34) is not defined in ChunkGenerator.cs. The model assumes that loop index i stands for the i-th `WorldDirection` in declaration order (`Globals.DirectionOfIndex`), with the offset `MeshExtraction.BlockVector` of that direction.
- `OpenSimplexNoise` internals and `TerrainGenerator.Initialize`. The noise, `SeaLevel`, `ChunkTranslation` and `BlockTranslation` are fields of `TerrainRules.TerrainConfig`, parameters of the model that the source sets in `TerrainGenerator.Initialize`.
- `TextureMapping.BlockTextureMapper.Initialize`: the XML reader, `float.Parse` and `int.Parse` are not modelled. Each `<block>` element arrives as a parsed entry with its own id, name and face elements. A `<name>` missing from a block (which would reuse the previous block's name) is not modelled. `DirectionFromName` is not shown, so a single-face element carries its direction. On failure the contract states when and with which error it fails, and that the tables stay well shaped, but not which blocks were registered before the failure.
- Indexing failures that the model states as preconditions rather than `Err` values:
  - The chunk indexers' array bounds (scripts/World/Chunk.cs:26-42) are preconditions of `Chunks.Chunk.Get`, `Set`, `GetAtVector`, `SetAtVector`, `GetAtPosition` and `SetAtPosition`.
  - `TerrainRules.BlockType` requires the lookup `chunk[above]` to be in range (scripts/World/Terrain/TerrainGenerator.cs:49).
  - `TextureMapping.BlockUvOf` and `TextureMapping.NewBlockUv` require at least six face coordinates (scripts/Graphics/BlockTextureMapper.cs:41).
  - `MeshExtraction.GenerateSurface` requires the chunk's own grid index to lie inside the window (scripts/World/ChunkGenerator.cs:17, 51).
- The `default:` branches that throw for an undeclared `WorldDirection` value (scripts/GlobalVars.cs:36, scripts/World/WorldPosition.cs:165, scripts/World/ChunkGenerator.cs:85, 118) cannot be reached in the model: a Dafny datatype has exactly its six constructors, so no out-of-range enum value can be formed.
- Floating point: local coordinates, UVs and vectors are exact reals. `float.Epsilon` equality is exact equality, and float rounding is not modelled.
- `FrameCounters.FrameCounter.Process`: frame times are unbounded integers, not floats, so the rounding of the tick count to `float` is not modelled. It uses the intended threshold; the written one is `FrameCounters.StepAsWritten` (see Findings). The OS clock is a parameter, and the label text is left out.
- `GameWorlds.GameWorld.Initialize`: the settings and the queue are passed in rather than read from static classes, and the `Player` it stores is left out.
- 32-bit `int` overflow of chunk coordinates and grid indices: integers are unbounded.
- The commented-out `WorldPosition` operators (`+`, unary and binary `-`) are unfinished in the source. Also left out: `Player.cs` (input and camera math), `WorldManager.cs` (node glue) and `BlockAtlasData.cs` (a dictionary wrapper).

## Findings

| source | as written | input that shows it | evidently intended | confidence | as-written member | corrected member |
|---|---|---|---|---|---|---|
| scripts/UI/FrameCounter.cs:24 | `time - 1000` is computed on the unsigned 64-bit tick count, so before 1000 ms it wraps to nearly 2^64 and every stored frame is evicted | frames [500] at time 600: the counter reports 1 frame instead of 2 | evict only frames at or below time − 1000, without wrap-around | not executed | FrameCounters.StepAsWritten, FrameCounters.FirstSecondUndercount | FrameCounters.Step (used by FrameCounters.FrameCounter.Process) |
