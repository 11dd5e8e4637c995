/**
 * The chunk request queue (`ChunkBuilder`): requests are queued in batches,
 * a batch is handed over with `SendRequests`, and `Update` starts building
 * the handed-over batch, generating the terrain of every chunk before
 * lighting and meshing any of them. The worker thread is a synchronous call;
 * the tasks it starts are recorded in the order they start.
 */
module ChunkBuilding {
  import opened WorldPositions

  /** A chunk to build and the world center at the time it was queued. */
  datatype Request = Request(position: WorldPosition, center: WorldPosition)

  /** A task the worker starts: terrain generation, or lighting and meshing. */
  datatype Task = GenerateChunk(request: Request) | BuildChunk(request: Request)

  /** Phase one: one terrain task per request, in list order. */
  function GeneratePhase(rs: seq<Request>): seq<Task>
  {
    if rs == [] then [] else GeneratePhase(rs[..|rs| - 1]) + [GenerateChunk(rs[|rs| - 1])]
  }

  /** Phase two: one building task per request, in reverse list order. */
  function BuildPhase(rs: seq<Request>): seq<Task>
  {
    if rs == [] then [] else [BuildChunk(rs[|rs| - 1])] + BuildPhase(rs[..|rs| - 1])
  }

  /** Everything one run of the worker starts, in order. */
  function Tasks(rs: seq<Request>): seq<Task>
  {
    GeneratePhase(rs) + BuildPhase(rs)
  }

  /** Phase one visits the requests first to last. */
  lemma {:induction false} GenerateOrder(rs: seq<Request>)
    ensures |GeneratePhase(rs)| == |rs|
    ensures forall k :: 0 <= k < |rs| ==> GeneratePhase(rs)[k] == GenerateChunk(rs[k])
  {
    if rs != [] {
      var front := rs[..|rs| - 1];
      GenerateOrder(front);
      var g := GeneratePhase(rs);
      assert g == GeneratePhase(front) + [GenerateChunk(rs[|rs| - 1])];
      forall k | 0 <= k < |rs|
        ensures g[k] == GenerateChunk(rs[k])
      {
        if k < |front| {
          assert front[k] == rs[k];
        }
      }
    }
  }

  /** Phase two visits the requests last to first. */
  lemma {:induction false} BuildOrder(rs: seq<Request>)
    ensures |BuildPhase(rs)| == |rs|
    ensures forall k :: 0 <= k < |rs| ==> BuildPhase(rs)[k] == BuildChunk(rs[|rs| - 1 - k])
  {
    if rs != [] {
      var front := rs[..|rs| - 1];
      BuildOrder(front);
      var b := BuildPhase(rs);
      assert b == [BuildChunk(rs[|rs| - 1])] + BuildPhase(front);
      forall k | 0 <= k < |rs|
        ensures b[k] == BuildChunk(rs[|rs| - 1 - k])
      {
        if k > 0 {
          assert b[k] == BuildPhase(front)[k - 1];
          assert front[|front| - 1 - (k - 1)] == rs[|rs| - 1 - k];
        }
      }
    }
  }

  /**
   * Every request has its terrain generated before any request is lit and
   * meshed, and each request gets exactly one task of each kind.
   */
  lemma GenerateBeforeBuild(rs: seq<Request>)
    ensures forall i, j :: 0 <= i < j < |Tasks(rs)| ==> !(Tasks(rs)[i].BuildChunk? && Tasks(rs)[j].GenerateChunk?)
    ensures forall r :: GenerateChunk(r) in Tasks(rs) <==> r in rs
    ensures forall r :: BuildChunk(r) in Tasks(rs) <==> r in rs
  {
    var g, b := GeneratePhase(rs), BuildPhase(rs);
    GenerateOrder(rs);
    BuildOrder(rs);
    assert Tasks(rs) == g + b;
    forall r | r in rs
      ensures GenerateChunk(r) in Tasks(rs) && BuildChunk(r) in Tasks(rs)
    {
      var k :| 0 <= k < |rs| && rs[k] == r;
      assert g[k] == GenerateChunk(r);
      assert b[|rs| - 1 - k] == BuildChunk(rs[k]);
    }
  }

  /** Phase one over one more request appends that request's terrain task. */
  lemma GeneratePhaseStep(rs: seq<Request>, k: int)
    requires 0 <= k < |rs|
    ensures GeneratePhase(rs[..k + 1]) == GeneratePhase(rs[..k]) + [GenerateChunk(rs[k])]
  {
    assert rs[..k + 1][..k] == rs[..k];
  }

  /** Phase two over one more request starts with that request's building task. */
  lemma BuildPhaseStep(rs: seq<Request>, i: int)
    requires 0 <= i < |rs|
    ensures BuildPhase(rs[..i + 1]) == [BuildChunk(rs[i])] + BuildPhase(rs[..i])
  {
    assert rs[..i + 1][..i] == rs[..i];
  }

  /** The static builder's state. */
  class ChunkBuilder {
    /** Requests still being queued (`_requests`). */
    var requests: seq<Request>
    /** Whether a batch is being queued (`_isSendingRequests`). */
    var isSendingRequests: bool
    /** Requests being built (`_processing`). */
    var processing: seq<Request>
    /** Whether the worker has been started (`_building`). */
    var building: bool
    /** The tasks started so far, in order. */
    var log: seq<Task>

    /** Between calls nothing is left in the processing list. */
    predicate Valid()
      reads this
    {
      processing == []
    }

    /** The static initialisers. */
    constructor ()
      ensures Valid()
      ensures requests == [] && !isSendingRequests && !building && log == []
    {
      requests := [];
      isSendingRequests := false;
      processing := [];
      building := false;
      log := [];
    }

    /** `QueueRequest`: the first request of a batch discards what was pending. */
    method QueueRequest(position: WorldPosition, center: WorldPosition)
      modifies this
      ensures isSendingRequests
      ensures !old(isSendingRequests) ==> requests == [Request(position, center)]
      ensures old(isSendingRequests) ==> requests == old(requests) + [Request(position, center)]
      ensures processing == old(processing) && building == old(building) && log == old(log)
    {
      if !isSendingRequests {
        isSendingRequests := true;
        requests := [];
      }
      requests := requests + [Request(position, center)];
    }

    /** `SendRequests`: closes the batch; the pending list is kept. */
    method SendRequests()
      modifies this
      ensures !isSendingRequests
      ensures requests == old(requests) && processing == old(processing)
      ensures building == old(building) && log == old(log)
    {
      isSendingRequests := false;
    }

    /**
     * `Update`: when a closed, non-empty batch is pending and no worker has
     * been started, mark the builder busy and run the worker; otherwise do
     * nothing. Nothing clears `building`, so the worker runs at most once.
     */
    method Update()
      requires Valid()
      modifies this
      ensures Valid()
      ensures old(building) ==> building
      ensures var starts := !old(isSendingRequests) && old(requests) != [] && !old(building);
        if starts then
          building && requests == [] && isSendingRequests == old(isSendingRequests) &&
          log == old(log) + Tasks(old(requests))
        else
          building == old(building) && requests == old(requests) &&
          isSendingRequests == old(isSendingRequests) && log == old(log)
    {
      if !isSendingRequests && |requests| > 0 {
        if building {
          return;
        }
        building := true;
        StartBuilding();
      }
    }

    /**
     * `StartBuilding`: take the whole pending list, generate every chunk,
     * then build them from the last to the first, removing each one from
     * the processing list once it has been built.
     */
    method StartBuilding()
      modifies this
      ensures requests == [] && processing == []
      ensures log == old(log) + Tasks(old(requests))
      ensures isSendingRequests == old(isSendingRequests) && building == old(building)
    {
      processing := requests;
      requests := [];
      ghost var batch := processing;
      ghost var start := log;
      ghost var sending, busy := isSendingRequests, building;

      var k := 0;
      while k < |processing|
        invariant processing == batch && 0 <= k <= |batch|
        invariant requests == [] && isSendingRequests == sending && building == busy
        invariant log == start + GeneratePhase(batch[..k])
      {
        assert log + [GenerateChunk(processing[k])] == start + GeneratePhase(batch[..k + 1]) by {
          GeneratePhaseStep(batch, k);
        }
        log := log + [GenerateChunk(processing[k])];
        k := k + 1;
      }
      assert batch[..|batch|] == batch;

      var i := |processing| - 1;
      while i >= 0
        invariant -1 <= i < |batch|
        invariant processing == batch[..i + 1]
        invariant requests == [] && isSendingRequests == sending && building == busy
        invariant log + BuildPhase(processing) == start + Tasks(batch)
      {
        assert processing[..i] + processing[i + 1..] == batch[..i];
        assert (log + [BuildChunk(processing[i])]) + BuildPhase(batch[..i]) == start + Tasks(batch) by {
          BuildPhaseStep(batch, i);
        }
        log := log + [BuildChunk(processing[i])];
        processing := processing[..i] + processing[i + 1..];
        i := i - 1;
      }
      assert processing == [] && BuildPhase(processing) == [];
      assert log == start + Tasks(batch);
    }
  }
}
