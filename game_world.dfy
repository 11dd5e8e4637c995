/**
 * The world (`GameWorld`): the center the loaded chunks are placed around,
 * the window of loaded chunks, and the chunk builder it drives.
 */
module GameWorlds {
  import opened Globals
  import opened WorldPositions
  import opened Chunks
  import opened ChunkBuilding

  class GameWorld {
    /** The world position the window is centered on (`_center`). */
    var center: WorldPosition
    /** The 2R x 2R window of loaded chunks, R the render distance (`_localChunks`). */
    var localChunks: array2<Chunk?>
    /** The static chunk builder the world sends its requests to. */
    const builder: ChunkBuilder

    /**
     * `Initialize`: center the world on the origin, allocate an empty window
     * and send a batch holding the single request for chunk (0, 0).
     */
    constructor Initialize(settings: GlobalVars, builder: ChunkBuilder)
      requires settings.Valid()
      modifies builder
      ensures this.builder == builder
      ensures center == Zero
      ensures fresh(localChunks)
      ensures localChunks.Length0 == 2 * settings.renderDistance as int
      ensures localChunks.Length1 == 2 * settings.renderDistance as int
      ensures forall i, j :: 0 <= i < localChunks.Length0 && 0 <= j < localChunks.Length1 ==> localChunks[i, j] == null
      ensures !old(builder.isSendingRequests) ==> builder.requests == [Request(ChunkOnly(0, 0), Zero)]
      ensures old(builder.isSendingRequests) ==> builder.requests == old(builder.requests) + [Request(ChunkOnly(0, 0), Zero)]
      ensures !builder.isSendingRequests
      ensures builder.processing == old(builder.processing) && builder.building == old(builder.building)
      ensures builder.log == old(builder.log)
    {
      this.builder := builder;
      center := Zero;
      var r := settings.renderDistance as int;
      localChunks := new Chunk?[r * 2, r * 2]((i, j) => null);
      new;
      builder.QueueRequest(ChunkOnly(0, 0), center);
      builder.SendRequests();
    }

    /** `Update`: one step of the chunk builder and nothing else. */
    method Update()
      requires builder.Valid()
      modifies builder
      ensures builder.Valid()
      ensures var starts := !old(builder.isSendingRequests) && old(builder.requests) != [] && !old(builder.building);
        if starts then
          builder.building && builder.requests == [] &&
          builder.isSendingRequests == old(builder.isSendingRequests) &&
          builder.log == old(builder.log) + Tasks(old(builder.requests))
        else
          builder.building == old(builder.building) && builder.requests == old(builder.requests) &&
          builder.isSendingRequests == old(builder.isSendingRequests) && builder.log == old(builder.log)
    {
      builder.Update();
    }
  }

  /**
   * Start-up: fresh settings and a fresh builder, `Initialize`, then the
   * first `Update`, which generates and then builds chunk (0, 0) and marks
   * the builder busy for good.
   */
  method Startup() returns (world: GameWorld)
    ensures world.builder.building && world.builder.requests == []
    ensures world.builder.log ==
      [GenerateChunk(Request(ChunkOnly(0, 0), Zero)), BuildChunk(Request(ChunkOnly(0, 0), Zero))]
  {
    var settings := new GlobalVars();
    var builder := new ChunkBuilder();
    world := new GameWorld.Initialize(settings, builder);
    world.Update();
    var r := Request(ChunkOnly(0, 0), Zero);
    assert Tasks([r]) == GeneratePhase([r]) + BuildPhase([r]);
    assert [r][..0] == [];
  }
}
