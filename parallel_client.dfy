// The parallel client's planning state: the id range of the listing it
// works on, the protocol limits, and the loops that request inputs, group
// jobs, cut results into bulk pushes and fold collector inputs.  Channel
// traffic is a parameter (the server's replies) or a result (what would be
// sent); threads, jar loading and logging are not part of this model.

module ParallelClients {
  import opened Common
  import opened Jobs
  import opened Messages
  import opened ClientPlan

  class ParallelClient {
    const minPriority: int
    const maxJobIds: Int32
    const roleKey: Key
    var config: ProtocolConfig
    var minJobId: int
    var maxJobId: int

    /** A client for the given listing request; `config` is the protocol
      * configuration the servlet sent when the connection was opened. */
    constructor (minPriority: int, maxJobIds: Int32, roleKey: Key, config: ProtocolConfig)
      ensures this.minPriority == minPriority && this.maxJobIds == maxJobIds
      ensures this.roleKey == roleKey && this.config == config
      ensures minJobId == LONG_MAX && maxJobId == LONG_MIN
    {
      this.minPriority := minPriority;
      this.maxJobIds := maxJobIds;
      this.roleKey := roleKey;
      this.config := config;
      minJobId := LONG_MAX;
      maxJobId := LONG_MIN;
    }

    /** The start of a session: an empty id range. */
    method ResetRange()
      modifies this`minJobId, this`maxJobId
      ensures minJobId == LONG_MAX && maxJobId == LONG_MIN
    {
      minJobId := LONG_MAX;
      maxJobId := LONG_MIN;
    }

    /** `determineJobIdRange`: widens the range to take in every listed id;
      * each bound either stays or becomes a listed id.  From the empty range
      * the bounds are the least and the greatest listed id. */
    method DetermineJobIdRange(ids: seq<int>)
      modifies this`minJobId, this`maxJobId
      ensures forall i :: 0 <= i < |ids| ==> minJobId <= ids[i] <= maxJobId
      ensures minJobId <= old(minJobId) && maxJobId >= old(maxJobId)
      ensures minJobId == old(minJobId) || minJobId in ids
      ensures maxJobId == old(maxJobId) || maxJobId in ids
      ensures ids != [] && (forall i :: 0 <= i < |ids| ==> ids[i] <= old(minJobId)) ==> minJobId in ids
      ensures ids != [] && (forall i :: 0 <= i < |ids| ==> ids[i] >= old(maxJobId)) ==> maxJobId in ids
    {
      var k := 0;
      while k < |ids|
        invariant 0 <= k <= |ids|
        invariant forall i :: 0 <= i < k ==> minJobId <= ids[i] <= maxJobId
        invariant minJobId <= old(minJobId) && maxJobId >= old(maxJobId)
        invariant minJobId == old(minJobId) || minJobId in ids[..k]
        invariant maxJobId == old(maxJobId) || maxJobId in ids[..k]
        invariant k > 0 && (forall i :: 0 <= i < |ids| ==> ids[i] <= old(minJobId)) ==> minJobId in ids[..k]
        invariant k > 0 && (forall i :: 0 <= i < |ids| ==> ids[i] >= old(maxJobId)) ==> maxJobId in ids[..k]
      {
        assert ids[..k + 1] == ids[..k] + [ids[k]];
        if ids[k] < minJobId {
          minJobId := ids[k];
        }
        if ids[k] > maxJobId {
          maxJobId := ids[k];
        }
        k := k + 1;
      }
      assert ids[..k] == ids;
    }

    /** The guard of a SLOG batch: the span of the range, in `long`
      * arithmetic, must not exceed the bulk push limit. */
    function CheckSpan(): (r: Option<Error>)
      reads this
      ensures r.Some? <==> SpanTooWide(minJobId, maxJobId, config.bulkPushLimit)
      ensures r.Some? ==> r.value == TooWide(WrapLong(maxJobId - minJobId), config.bulkPushLimit)
    {
      if WrapLong(maxJobId - minJobId) > config.bulkPushLimit then
        Some(TooWide(WrapLong(maxJobId - minJobId), config.bulkPushLimit))
      else None
    }

    /** `requestBulkInputs`: one request per input window of the range, each
      * reply merged into the inputs, with 2 reported as the failure count.
      * The first reply that is not a `BulkInputs` ends the loop with its
      * failure; the requests sent up to then are a prefix of the plan. */
    method RequestBulkInputs(respond: InputRequest -> Reply) returns (r: Result<BulkInputs>, sent: seq<InputRequest>)
      requires config.bulkRequestLimit >= 1
      requires LONG_MIN <= minJobId && maxJobId + config.bulkRequestLimit <= LONG_MAX
      requires maxJobId - minJobId + config.bulkRequestLimit <= LONG_MAX
      ensures r.Ok? <==> Merged(PlannedRequests(), respond, map[]).Ok?
      ensures r.Ok? ==> sent == PlannedRequests() && r.value == BulkInputs(Merged(sent, respond, map[]).value, 2)
      ensures r.Err? ==> 0 < |sent| <= |PlannedRequests()| && sent == PlannedRequests()[..|sent|]
      ensures r.Err? ==> Unpack(respond(sent[|sent| - 1])).Err? && r.error == Unpack(respond(sent[|sent| - 1])).error
    {
      var inputs;
      inputs, sent := RequestWindows(respond, roleKey, minJobId, maxJobId, config.bulkRequestLimit);
      match inputs
      case Err(e) => r := Err(e);
      case Ok(m) => r := Ok(BulkInputs(m, 2));
    }

    /** The requests `requestBulkInputs` plans for the current range. */
    function PlannedRequests(): (r: seq<InputRequest>)
      requires config.bulkRequestLimit >= 1
      requires LONG_MIN <= minJobId && maxJobId + config.bulkRequestLimit <= LONG_MAX
      reads this
      ensures |r| == |WindowsFrom(minJobId, maxJobId, config.bulkRequestLimit, 0)|
      ensures forall k :: 0 <= k < |r| ==> r[k].roleKey == roleKey && r[k].additional == Some([])
    {
      WindowsBounds(minJobId, maxJobId, config.bulkRequestLimit, 0);
      WindowRequests(roleKey, WindowsFrom(minJobId, maxJobId, config.bulkRequestLimit, 0))
    }

    /** The request loop of `requestBulkInputs` over ids `min..max`. */
    static method RequestWindows(respond: InputRequest -> Reply, roleKey: Key, min: int, max: int, limit: int)
      returns (r: Result<map<int, Obj>>, sent: seq<InputRequest>)
      requires limit >= 1 && LONG_MIN <= min && max + limit <= LONG_MAX && max - min + limit <= LONG_MAX
      ensures WithinLong(WindowsFrom(min, max, limit, 0))
      ensures r == Merged(WindowRequests(roleKey, WindowsFrom(min, max, limit, 0)), respond, map[])
      ensures r.Ok? ==> sent == WindowRequests(roleKey, WindowsFrom(min, max, limit, 0))
      ensures r.Err? ==> 0 < |sent| <= |WindowsFrom(min, max, limit, 0)|
      ensures r.Err? ==> sent == WindowRequests(roleKey, WindowsFrom(min, max, limit, 0))[..|sent|]
      ensures r.Err? ==> Unpack(respond(sent[|sent| - 1])).Err? && r.error == Unpack(respond(sent[|sent| - 1])).error
    {
      WindowsBounds(min, max, limit, 0);
      ghost var planned := WindowRequests(roleKey, WindowsFrom(min, max, limit, 0));
      var i := 0;
      var inputs: map<int, Obj> := map[];
      sent := [];
      while min + i < max
        invariant i >= 0 && WithinLong(WindowsFrom(min, max, limit, i))
        invariant planned == sent + WindowRequests(roleKey, WindowsFrom(min, max, limit, i))
        invariant Merged(planned, respond, map[]) ==
                  Merged(WindowRequests(roleKey, WindowsFrom(min, max, limit, i)), respond, inputs)
        decreases max - min - i
      {
        var req := InputRequest(roleKey, min + i, if max < min + i + limit then max + 1 else min + i + limit + 1, Some([]));
        WindowRequestsStep(roleKey, min, max, limit, i);
        ghost var rest := WindowRequests(roleKey, WindowsFrom(min, max, limit, i + limit));
        MergedCons(req, rest, respond, inputs);
        sent := sent + [req];
        match Unpack(respond(req))
        case Err(e) => {
          PrefixOfSplit(planned, sent, rest);
          return Err(e), sent;
        }
        case Ok(m) => {
          inputs := inputs + m;
        }
        i := i + limit;
      }
      assert WindowsFrom(min, max, limit, i) == [];
      assert planned == sent;
      r := Ok(inputs);
    }

    /** `groupJobsByProgram` over the current range. */
    method GroupJobsByProgram(ids: seq<int>, infos: seq<JobInfo>, bulkInputs: BulkInputs)
      returns (r: Result<map<int, map<int, Obj>>>)
      ensures r == Grouped(ids, infos, bulkInputs.inputs, minJobId, maxJobId)
    {
      var g: map<int, map<int, Obj>> := map[];
      var i := 0;
      while i < |ids|
        invariant 0 <= i <= |ids|
        invariant Grouped(ids[..i], infos, bulkInputs.inputs, minJobId, maxJobId) == Ok(g)
      {
        assert ids[..i + 1][..i] == ids[..i];
        var id := ids[i];
        if id < minJobId || id > maxJobId {
          i := i + 1;
          continue;
        }
        if i >= |infos| {
          GroupedKeepsFailure(ids, infos, bulkInputs.inputs, minJobId, maxJobId, i + 1);
          return Err(IndexOutOfBounds);
        }
        var p := infos[i].programId;
        var group := if p in g then g[p] else map[];
        g := g[p := group[id := Lookup(bulkInputs.inputs, id)]];
        i := i + 1;
      }
      assert ids[..i] == ids;
      r := Ok(g);
    }

    /** `createJobInfoMap`: the info at each listed id's index, the last
      * index winning for an id listed twice; fewer infos than ids fail the
      * list access. */
    static method CreateJobInfoMap(ids: seq<int>, infos: seq<JobInfo>) returns (r: Result<map<int, JobInfo>>)
      ensures r.Ok? <==> |ids| <= |infos|
      ensures r.Err? ==> r.error == IndexOutOfBounds
      ensures r.Ok? ==> forall id :: id in r.value <==> id in ids
      ensures r.Ok? ==> forall i :: 0 <= i < |ids| ==> (
                ids[i] in r.value && ((forall j :: i < j < |ids| ==> ids[j] != ids[i]) ==> r.value[ids[i]] == infos[i]))
    {
      var m: map<int, JobInfo> := map[];
      var i := 0;
      while i < |ids|
        invariant 0 <= i <= |ids|
        invariant i > |infos| ==> false
        invariant forall id :: id in m <==> id in ids[..i]
        invariant forall k :: 0 <= k < i ==> (
                    ids[k] in m && ((forall j :: k < j < i ==> ids[j] != ids[k]) ==> m[ids[k]] == infos[k]))
      {
        if i >= |infos| {
          return Err(IndexOutOfBounds);
        }
        assert ids[..i + 1] == ids[..i] + [ids[i]];
        m := m[ids[i] := infos[i]];
        i := i + 1;
      }
      assert ids[..i] == ids;
      r := Ok(m);
    }

    /** `sendResults`: nothing for no results; otherwise one bulk push per
      * non-empty window of `bulkPushLimit` ids across the range. */
    method SendResults(results: map<int, Obj>) returns (pushes: seq<BulkPush>)
      requires config.bulkPushLimit >= 1 && maxJobId + config.bulkPushLimit <= LONG_MAX
      ensures |results| == 0 ==> pushes == []
      ensures |results| > 0 ==> pushes == ChunksFrom(results, minJobId, maxJobId, config.bulkPushLimit, roleKey)
    {
      if |results| == 0 {
        return [];
      }
      pushes := SendWindows(results, minJobId, maxJobId, config.bulkPushLimit, roleKey);
    }

    /** The loop of `sendResults`: the windows from `start` to `max`, in order. */
    static method SendWindows(results: map<int, Obj>, start: int, max: int, limit: int, roleKey: Key)
      returns (pushes: seq<BulkPush>)
      requires limit >= 1
      ensures pushes == ChunksFrom(results, start, max, limit, roleKey)
    {
      var currentStart := start;
      ghost var total := ChunksFrom(results, start, max, limit, roleKey);
      pushes := [];
      while currentStart <= max
        invariant pushes + ChunksFrom(results, currentStart, max, limit, roleKey) == total
        decreases max - currentStart + 1
      {
        var sentNow, currentEnd := SendWindow(results, currentStart, max, limit, roleKey);
        ghost var before := pushes;
        pushes := pushes + sentNow;
        ChunksAdvance(results, currentStart, currentEnd, max, limit, roleKey, before, pushes, total);
        currentStart := currentEnd + 1;
      }
      ChunksFromPast(results, currentStart, max, limit, roleKey, pushes, total);
    }

    /** One window of `sendResults`: its last id, and a push of its
      * results unless it has none. */
    static method SendWindow(results: map<int, Obj>, s: int, max: int, limit: int, roleKey: Key)
      returns (sent: seq<BulkPush>, e: int)
      requires limit >= 1 && s <= max
      ensures e == ChunkEnd(s, max, limit) && s <= e <= max
      ensures sent == ChunkPushes(ChunkOf(results, s, e), roleKey)
    {
      e := if s + limit - 1 < max then s + limit - 1 else max;
      var chunk := CollectChunk(results, s, e);
      sent := [];
      if |chunk| > 0 {
        sent := [BulkPush(chunk, roleKey)];
      }
    }

    /** The window `[s, e]` of the results, filled id by id. */
    static method CollectChunk(results: map<int, Obj>, s: int, e: int) returns (chunk: map<int, Obj>)
      ensures chunk == ChunkOf(results, s, e)
    {
      chunk := map[];
      var jobId := s;
      while jobId <= e
        invariant s <= jobId && (jobId <= e + 1 || jobId == s)
        invariant chunk == ChunkOf(results, s, jobId - 1)
        decreases e - jobId + 1
      {
        if jobId in results {
          chunk := chunk[jobId := results[jobId]];
        }
        jobId := jobId + 1;
      }
    }

    /** `handleCollectorJob`: the reducer folded over the accumulator (from
      * 0) and the same result once per prerequisite, in any order, and the
      * outcome pushed as this client's result for `jobId`. */
    method HandleCollectorJob(reducer: Obj -> Result<Obj>, prerequisites: set<int>, result: Obj, jobId: int)
      returns (r: Result<PushResult>)
      ensures Fold(reducer, IntObj(0), result, |prerequisites|).Ok? <==> r.Ok?
      ensures r.Ok? ==> r.value == PushResult(jobId, roleKey, Fold(reducer, IntObj(0), result, |prerequisites|).value)
      ensures r.Err? ==> r.error == Fold(reducer, IntObj(0), result, |prerequisites|).error
    {
      var input := IntObj(0);
      var left := prerequisites;
      var n := 0;
      while left != {}
        invariant n + |left| == |prerequisites|
        invariant Fold(reducer, IntObj(0), result, n) == Ok(input)
        decreases |left|
      {
        HasElement(left);
        var dep :| dep in left;
        left := left - {dep};
        match reducer(ArrayObj([input, result]))
        case Err(e) => {
          FoldKeepsFailure(reducer, IntObj(0), result, n + 1, |prerequisites|);
          return Err(e);
        }
        case Ok(next) => {
          input := next;
        }
        n := n + 1;
      }
      r := Ok(PushResult(jobId, roleKey, input));
    }
  }
}
