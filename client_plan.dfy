// The parallel client's batch planning as values: the windows of its input
// requests, how replies are merged, how jobs are grouped by program, how
// results are cut into bulk pushes, and the collector fold.  The
// ParallelClient class is proved against these definitions.

module ClientPlan {
  import opened Common
  import opened Jobs
  import opened Messages

  // ---------------------------------------------------------------- id span

  /** The span check `maxJobId - minJobId > bulkPushLimit`, in `long` arithmetic. */
  predicate SpanTooWide(min: int, max: int, limit: Int32) {
    WrapLong(max - min) > limit
  }

  /** Without overflow the check compares the exact span; a span wider than
    * `Long.MAX_VALUE` wraps to a negative number and passes. */
  lemma SpanCheckMeaning(min: int, max: int, limit: Int32)
    ensures LONG_MIN <= max - min <= LONG_MAX ==> (SpanTooWide(min, max, limit) <==> max - min > limit)
    ensures limit >= -1 ==> !SpanTooWide(LONG_MIN, LONG_MAX, limit)
  {
    assert 0x1_7fff_ffff_ffff_ffff % 0x1_0000_0000_0000_0000 == 0x7fff_ffff_ffff_ffff;
    assert WrapLong(LONG_MAX - LONG_MIN) == -1;
  }

  // ---------------------------------------------------------------- input windows

  /** The exclusive end of the window starting at `min + i`: one past the
    * last listed id, or `limit + 1` ids on. */
  function WindowEnd(min: int, max: int, i: int, limit: int): int {
    if max < min + i + limit then max + 1 else min + i + limit + 1
  }

  /** The `[start, end)` windows requested from offset `i` on, stepping by `limit`. */
  function WindowsFrom(min: int, max: int, limit: int, i: int): seq<(int, int)>
    requires limit >= 1 && i >= 0
    decreases max - min - i
  {
    if min + i < max then [(min + i, WindowEnd(min, max, i, limit))] + WindowsFrom(min, max, limit, i + limit)
    else []
  }

  /** Some window of `ws` holds id `x`. */
  predicate Covered(ws: seq<(int, int)>, x: int) {
    exists k :: 0 <= k < |ws| && ws[k].0 <= x < ws[k].1
  }

  lemma {:induction false} WindowsFromShape(min: int, max: int, limit: int, i: int)
    requires limit >= 1 && i >= 0
    ensures forall k :: 0 <= k < |WindowsFrom(min, max, limit, i)| ==>
              var w := WindowsFrom(min, max, limit, i)[k];
              min + i <= w.0 < max && w.0 < w.1 <= max + 1 && w.1 - w.0 <= limit + 1
    decreases max - min - i
  {
    if min + i < max {
      WindowsFromShape(min, max, limit, i + limit);
    }
  }

  lemma {:induction false} WindowsFromCover(min: int, max: int, limit: int, i: int, x: int)
    requires limit >= 1 && i >= 0
    requires min + i < max && min + i <= x <= max
    ensures Covered(WindowsFrom(min, max, limit, i), x)
    decreases max - min - i
  {
    var ws := WindowsFrom(min, max, limit, i);
    if x <= min + i + limit {
      assert ws[0] == (min + i, WindowEnd(min, max, i, limit));
    } else {
      var rest := WindowsFrom(min, max, limit, i + limit);
      WindowsFromCover(min, max, limit, i + limit, x);
      var k :| 0 <= k < |rest| && rest[k].0 <= x < rest[k].1;
      assert ws[k + 1] == rest[k];
    }
  }

  /** The input windows of ids `min..max`: each starts inside `[min, max)`,
    * is non-empty and holds at most `limit + 1` ids; together they cover
    * `[min, max]` when `min < max`; there are none when `min >= max`, so a
    * single listed id is never requested. */
  lemma InputWindowsPlan(min: int, max: int, limit: int)
    requires limit >= 1
    ensures forall k :: 0 <= k < |WindowsFrom(min, max, limit, 0)| ==>
              var w := WindowsFrom(min, max, limit, 0)[k];
              min <= w.0 < max && w.0 < w.1 <= max + 1 && w.1 - w.0 <= limit + 1
    ensures min < max ==> forall x :: min <= x <= max ==> Covered(WindowsFrom(min, max, limit, 0), x)
    ensures min >= max ==> WindowsFrom(min, max, limit, 0) == []
  {
    WindowsFromShape(min, max, limit, 0);
    if min < max {
      forall x | min <= x <= max ensures Covered(WindowsFrom(min, max, limit, 0), x) {
        WindowsFromCover(min, max, limit, 0, x);
      }
    }
  }

  /** Every window's bounds fit in a `long`. */
  predicate WithinLong(ws: seq<(int, int)>) {
    forall k :: 0 <= k < |ws| ==> LONG_MIN <= ws[k].0 <= LONG_MAX && LONG_MIN <= ws[k].1 <= LONG_MAX
  }

  /** With `max + 1` still a `long`, so are the bounds of every window. */
  lemma WindowsBounds(min: int, max: int, limit: int, i: int)
    requires limit >= 1 && i >= 0
    requires LONG_MIN <= min && max + 1 <= LONG_MAX
    ensures WithinLong(WindowsFrom(min, max, limit, i))
  {
    WindowsFromShape(min, max, limit, i);
  }

  /** The bulk input requests for windows `ws`: the client's key, the
    * window's bounds and an empty list of additional ids. */
  function WindowRequests(roleKey: Key, ws: seq<(int, int)>): (r: seq<InputRequest>)
    requires WithinLong(ws)
    ensures |r| == |ws|
  {
    seq(|ws|, k requires 0 <= k < |ws| => InputRequest(roleKey, ws[k].0, ws[k].1, Some([])))
  }

  /** Requests for consecutive runs of windows are consecutive. */
  lemma WindowRequestsAppend(roleKey: Key, a: seq<(int, int)>, b: seq<(int, int)>)
    requires WithinLong(a) && WithinLong(b)
    ensures WithinLong(a + b)
    ensures WindowRequests(roleKey, a + b) == WindowRequests(roleKey, a) + WindowRequests(roleKey, b)
  {
    assert forall k :: 0 <= k < |a + b| ==> (a + b)[k] == if k < |a| then a[k] else b[k - |a|];
  }

  /** The requests from offset `i` on: the one for window `i`, then the rest. */
  lemma WindowRequestsStep(roleKey: Key, min: int, max: int, limit: int, i: int)
    requires limit >= 1 && i >= 0 && min + i < max
    requires LONG_MIN <= min && max + 1 <= LONG_MAX
    ensures WithinLong(WindowsFrom(min, max, limit, i)) && WithinLong(WindowsFrom(min, max, limit, i + limit))
    ensures WindowRequests(roleKey, WindowsFrom(min, max, limit, i)) ==
            [InputRequest(roleKey, min + i, WindowEnd(min, max, i, limit), Some([]))] +
            WindowRequests(roleKey, WindowsFrom(min, max, limit, i + limit))
  {
    WindowsBounds(min, max, limit, i);
    WindowsBounds(min, max, limit, i + limit);
    var w := (min + i, WindowEnd(min, max, i, limit));
    var rest := WindowsFrom(min, max, limit, i + limit);
    assert WindowsFrom(min, max, limit, i) == [w] + rest;
    WindowRequestsAppend(roleKey, [w], rest);
  }

  /** What the client reads after a request. */
  datatype Reply =
    | InputsReply(inputs: BulkInputs)
    | TermReply(term: Termination)
    | NullReply
    | OtherReply

  /** The inputs of one reply, or the failure it causes: a termination ends
    * the session, null fails the non-null check, anything else the cast. */
  function Unpack(reply: Reply): (r: Result<map<int, Obj>>)
    ensures r.Ok? <==> reply.InputsReply?
    ensures reply.TermReply? ==> r == Err(Terminated(reply.term.GetCause()))
  {
    match reply
    case InputsReply(b) => Ok(b.inputs)
    case TermReply(t) => Err(Terminated(t.GetCause()))
    case NullReply => Err(NullPointer)
    case OtherReply => Err(ClassCast)
  }

  /** The inputs gathered from the replies to `reqs`, each merged over
    * `acc` (a later reply wins), or the first failure. */
  function Merged(reqs: seq<InputRequest>, respond: InputRequest -> Reply, acc: map<int, Obj>): Result<map<int, Obj>>
    decreases |reqs|
  {
    if reqs == [] then Ok(acc)
    else
      match Unpack(respond(reqs[0]))
      case Err(e) => Err(e)
      case Ok(m) => Merged(reqs[1..], respond, acc + m)
  }

  /** Merging succeeds exactly when every reply carries inputs; it then keeps
    * every id of `acc` and adds only ids some reply carries. */
  lemma {:induction false} MergedMeaning(reqs: seq<InputRequest>, respond: InputRequest -> Reply, acc: map<int, Obj>)
    ensures Merged(reqs, respond, acc).Ok? ==> acc.Keys <= Merged(reqs, respond, acc).value.Keys
    ensures Merged(reqs, respond, acc).Ok? <==> forall j :: 0 <= j < |reqs| ==> respond(reqs[j]).InputsReply?
    ensures Merged(reqs, respond, acc).Ok? ==> forall id :: id in Merged(reqs, respond, acc).value ==>
              id in acc || exists j :: 0 <= j < |reqs| && id in respond(reqs[j]).inputs.inputs
    decreases |reqs|
  {
    if reqs != [] && Unpack(respond(reqs[0])).Ok? {
      var m := Unpack(respond(reqs[0])).value;
      var rest := Merged(reqs[1..], respond, acc + m);
      MergedMeaning(reqs[1..], respond, acc + m);
      if rest.Ok? {
        forall j | 1 <= j < |reqs| ensures respond(reqs[j]).InputsReply? {
          assert reqs[1..][j - 1] == reqs[j];
        }
        forall id | id in rest.value && id !in acc
          ensures exists j :: 0 <= j < |reqs| && id in respond(reqs[j]).inputs.inputs
        {
          if id !in m {
            var j :| 0 <= j < |reqs[1..]| && id in respond(reqs[1..][j]).inputs.inputs;
            assert reqs[1..][j] == reqs[j + 1];
          }
        }
      } else {
        var j :| 0 <= j < |reqs[1..]| && !respond(reqs[1..][j]).InputsReply?;
        assert reqs[1..][j] == reqs[j + 1];
      }
    }
  }

  /** Merging the replies to one request and then to the rest. */
  lemma MergedCons(req: InputRequest, reqs: seq<InputRequest>, respond: InputRequest -> Reply, acc: map<int, Obj>)
    ensures Unpack(respond(req)).Err? ==> Merged([req] + reqs, respond, acc) == Err(Unpack(respond(req)).error)
    ensures Unpack(respond(req)).Ok? ==>
              Merged([req] + reqs, respond, acc) == Merged(reqs, respond, acc + Unpack(respond(req)).value)
  {
    assert ([req] + reqs)[1..] == reqs;
  }

  // ---------------------------------------------------------------- grouping

  /** The jobs already grouped under program `p`. */
  function GroupOf(g: map<int, map<int, Obj>>, p: int): map<int, Obj> {
    if p in g then g[p] else map[]
  }

  /** `groupJobsByProgram`: every listed id within `[min, max]`, with its
    * input (null if none arrived), under the program of the info at the
    * same index; a missing info fails the list access. */
  function Grouped(ids: seq<int>, infos: seq<JobInfo>, inputs: map<int, Obj>, min: int, max: int)
    : Result<map<int, map<int, Obj>>>
    decreases |ids|
  {
    if ids == [] then Ok(map[])
    else
      match Grouped(ids[..|ids| - 1], infos, inputs, min, max)
      case Err(e) => Err(e)
      case Ok(g) =>
        var i := |ids| - 1;
        var id := ids[i];
        if id < min || id > max then Ok(g)
        else if i >= |infos| then Err(IndexOutOfBounds)
        else
          var p := infos[i].programId;
          Ok(g[p := GroupOf(g, p)[id := Lookup(inputs, id)]])
  }

  /** Once a prefix of the listing fails, the whole listing fails alike. */
  lemma {:induction false} GroupedKeepsFailure(ids: seq<int>, infos: seq<JobInfo>, inputs: map<int, Obj>, min: int, max: int, n: nat)
    requires n <= |ids| && Grouped(ids[..n], infos, inputs, min, max).Err?
    ensures Grouped(ids, infos, inputs, min, max) == Grouped(ids[..n], infos, inputs, min, max)
    decreases |ids| - n
  {
    if n == |ids| {
      assert ids[..n] == ids;
    } else {
      assert ids[..n + 1][..n] == ids[..n];
      GroupedKeepsFailure(ids, infos, inputs, min, max, n + 1);
    }
  }

  /** Every grouped job is listed within `[min, max]` with an info under
    * its group's program. */
  ghost predicate GroupsSound(g: map<int, map<int, Obj>>, ids: seq<int>, infos: seq<JobInfo>, min: int, max: int)
    requires |ids| <= |infos|
  {
    forall p, id :: p in g && id in g[p] ==>
      exists i :: 0 <= i < |ids| && ids[i] == id && min <= id <= max && infos[i].programId == p
  }

  /** Every job listed within `[min, max]` is in the group of its info's program. */
  predicate GroupsComplete(g: map<int, map<int, Obj>>, ids: seq<int>, infos: seq<JobInfo>, min: int, max: int)
    requires |ids| <= |infos|
  {
    forall i :: 0 <= i < |ids| && min <= ids[i] <= max ==>
      infos[i].programId in g && ids[i] in g[infos[i].programId]
  }

  /** Every grouped job is paired with its input. */
  predicate GroupsCarryInputs(g: map<int, map<int, Obj>>, inputs: map<int, Obj>) {
    forall p, id :: p in g && id in g[p] ==> g[p][id] == Lookup(inputs, id)
  }

  /** One more listed id: grouped when in range, else skipped. */
  lemma GroupedStep(ids: seq<int>, infos: seq<JobInfo>, inputs: map<int, Obj>, min: int, max: int)
    requires ids != [] && |ids| <= |infos|
    requires Grouped(ids[..|ids| - 1], infos, inputs, min, max).Ok?
    ensures Grouped(ids, infos, inputs, min, max).Ok?
    ensures var g := Grouped(ids[..|ids| - 1], infos, inputs, min, max).value;
            var id := ids[|ids| - 1];
            var p := infos[|ids| - 1].programId;
            Grouped(ids, infos, inputs, min, max).value ==
              if id < min || id > max then g else g[p := GroupOf(g, p)[id := Lookup(inputs, id)]]
  {
  }

  lemma {:induction false} GroupedSucceeds(ids: seq<int>, infos: seq<JobInfo>, inputs: map<int, Obj>, min: int, max: int)
    requires |ids| <= |infos|
    ensures Grouped(ids, infos, inputs, min, max).Ok?
    decreases |ids|
  {
    if ids != [] {
      GroupedSucceeds(ids[..|ids| - 1], infos, inputs, min, max);
      GroupedStep(ids, infos, inputs, min, max);
    }
  }

  lemma {:induction false} GroupedIsSound(ids: seq<int>, infos: seq<JobInfo>, inputs: map<int, Obj>, min: int, max: int)
    requires |ids| <= |infos|
    ensures Grouped(ids, infos, inputs, min, max).Ok?
    ensures GroupsSound(Grouped(ids, infos, inputs, min, max).value, ids, infos, min, max)
    ensures GroupsCarryInputs(Grouped(ids, infos, inputs, min, max).value, inputs)
    decreases |ids|
  {
    if ids != [] {
      var front := ids[..|ids| - 1];
      GroupedIsSound(front, infos, inputs, min, max);
      GroupedStep(ids, infos, inputs, min, max);
      var g := Grouped(front, infos, inputs, min, max).value;
      var g' := Grouped(ids, infos, inputs, min, max).value;
      var i := |ids| - 1;
      forall p, x | p in g' && x in g'[p]
        ensures exists j :: 0 <= j < |ids| && ids[j] == x && min <= x <= max && infos[j].programId == p
      {
        if min <= ids[i] <= max && p == infos[i].programId && x == ids[i] {
        } else {
          assert p in g && x in g[p];
          var j :| 0 <= j < |front| && front[j] == x && min <= x <= max && infos[j].programId == p;
          assert ids[j] == x;
        }
      }
    }
  }

  lemma {:induction false} GroupedIsComplete(ids: seq<int>, infos: seq<JobInfo>, inputs: map<int, Obj>, min: int, max: int)
    requires |ids| <= |infos|
    ensures Grouped(ids, infos, inputs, min, max).Ok?
    ensures GroupsComplete(Grouped(ids, infos, inputs, min, max).value, ids, infos, min, max)
    decreases |ids|
  {
    if ids != [] {
      var front := ids[..|ids| - 1];
      GroupedIsComplete(front, infos, inputs, min, max);
      GroupedStep(ids, infos, inputs, min, max);
      var g' := Grouped(ids, infos, inputs, min, max).value;
      forall j | 0 <= j < |ids| && min <= ids[j] <= max
        ensures infos[j].programId in g' && ids[j] in g'[infos[j].programId]
      {
        if j < |front| {
          assert front[j] == ids[j];
        }
      }
    }
  }

  /** No job is in two groups. */
  ghost predicate GroupsDisjoint(g: map<int, map<int, Obj>>) {
    forall p1, p2, id :: p1 in g && p2 in g && id in g[p1] && id in g[p2] ==> p1 == p2
  }

  /** With an info for every listed id, grouping succeeds: a job is in a
    * group exactly when it is listed within the range under that group's
    * program, paired with its input (null if none arrived); with no id
    * listed twice, a job is in one group only. */
  lemma GroupedMeaning(ids: seq<int>, infos: seq<JobInfo>, inputs: map<int, Obj>, min: int, max: int)
    requires |ids| <= |infos|
    ensures Grouped(ids, infos, inputs, min, max).Ok?
    ensures GroupsSound(Grouped(ids, infos, inputs, min, max).value, ids, infos, min, max)
    ensures GroupsComplete(Grouped(ids, infos, inputs, min, max).value, ids, infos, min, max)
    ensures GroupsCarryInputs(Grouped(ids, infos, inputs, min, max).value, inputs)
    ensures Distinct(ids) ==> GroupsDisjoint(Grouped(ids, infos, inputs, min, max).value)
  {
    GroupedIsSound(ids, infos, inputs, min, max);
    GroupedIsComplete(ids, infos, inputs, min, max);
    var g := Grouped(ids, infos, inputs, min, max).value;
    if Distinct(ids) {
      forall p1, p2, id | p1 in g && p2 in g && id in g[p1] && id in g[p2] ensures p1 == p2 {
        var i1 :| 0 <= i1 < |ids| && ids[i1] == id && min <= id <= max && infos[i1].programId == p1;
        var i2 :| 0 <= i2 < |ids| && ids[i2] == id && min <= id <= max && infos[i2].programId == p2;
      }
    }
  }

  /** Listed infos are masked clones, whose program id is -1: grouping a
    * listing puts every job in the one group of program -1. */
  lemma {:induction false} MaskedListingFormsOneGroup(ids: seq<int>, infos: seq<JobInfo>, inputs: map<int, Obj>, min: int, max: int)
    requires forall i :: 0 <= i < |infos| ==> infos[i].programId == -1
    ensures Grouped(ids, infos, inputs, min, max).Ok? ==> Grouped(ids, infos, inputs, min, max).value.Keys <= {-1}
    decreases |ids|
  {
    if ids != [] {
      MaskedListingFormsOneGroup(ids[..|ids| - 1], infos, inputs, min, max);
    }
  }

  // ---------------------------------------------------------------- push chunks

  /** The results with ids in `[s, e]`. */
  function ChunkOf(results: map<int, Obj>, s: int, e: int): map<int, Obj> {
    map id | id in results && s <= id <= e :: results[id]
  }

  /** The last id of the chunk starting at `s`: `limit` ids on, or `max`. */
  function ChunkEnd(s: int, max: int, limit: int): int {
    if s + limit - 1 < max then s + limit - 1 else max
  }

  /** `sendResults` from `s` on: one bulk push per non-empty chunk. */
  function ChunksFrom(results: map<int, Obj>, s: int, max: int, limit: int, roleKey: Key): seq<BulkPush>
    requires limit >= 1
    decreases max - s + 1
  {
    if s > max then []
    else
      var e := ChunkEnd(s, max, limit);
      var chunk := ChunkOf(results, s, e);
      ChunkPushes(chunk, roleKey) + ChunksFrom(results, e + 1, max, limit, roleKey)
  }

  /** The push for one chunk: none when the chunk is empty. */
  function ChunkPushes(chunk: map<int, Obj>, roleKey: Key): (r: seq<BulkPush>)
    ensures |chunk| == 0 ==> r == []
    ensures |chunk| > 0 ==> r == [BulkPush(chunk, roleKey)]
  {
    if |chunk| > 0 then [BulkPush(chunk, roleKey)] else []
  }

  /** A set of ids inside `[a, b)` has at most `b - a` members. */
  lemma {:induction false} WithinInterval(s: set<int>, a: int, b: int)
    requires a <= b
    requires forall x :: x in s ==> a <= x < b
    ensures |s| <= b - a
    decreases b - a
  {
    if a < b {
      WithinInterval(s - {b - 1}, a, b - 1);
    } else {
      assert s == {};
    }
  }

  /** Every push carries the client's key and between 1 and `limit` results. */
  predicate PushesSized(ps: seq<BulkPush>, roleKey: Key, limit: int) {
    forall k :: 0 <= k < |ps| ==> ps[k].roleKey == roleKey && 1 <= |ps[k].results| <= limit
  }

  /** Every pushed result is the client's own result for an id in `[s, max]`. */
  predicate PushesFaithful(ps: seq<BulkPush>, results: map<int, Obj>, s: int, max: int) {
    forall k :: 0 <= k < |ps| ==> ChunkFaithful(ps[k].results, results, s, max)
  }

  /** Every result of `chunk` is the client's own result for an id in `[s, max]`. */
  predicate ChunkFaithful(chunk: map<int, Obj>, results: map<int, Obj>, s: int, max: int) {
    forall id :: id in chunk ==> s <= id <= max && id in results && chunk[id] == results[id]
  }

  /** Every result with an id in `[s, max]` is in some push. */
  predicate PushesCover(ps: seq<BulkPush>, results: map<int, Obj>, s: int, max: int) {
    forall id :: id in results && s <= id <= max ==> exists k :: 0 <= k < |ps| && id in ps[k].results
  }

  /** No id is in two pushes. */
  predicate PushesDisjoint(ps: seq<BulkPush>) {
    forall k1, k2, id :: 0 <= k1 < |ps| && 0 <= k2 < |ps| && id in ps[k1].results && id in ps[k2].results ==> k1 == k2
  }

  /** The first push of the pushes from `s` on, if its chunk is non-empty,
    * and the pushes after it. */
  lemma ChunksStep(results: map<int, Obj>, s: int, max: int, limit: int, roleKey: Key)
    requires limit >= 1 && s <= max
    ensures ChunksFrom(results, s, max, limit, roleKey) ==
              ChunkPushes(ChunkOf(results, s, ChunkEnd(s, max, limit)), roleKey) +
              ChunksFrom(results, ChunkEnd(s, max, limit) + 1, max, limit, roleKey)
  {
  }

  /** The pushes sent so far, followed by those of the next window and the
    * rest, are the pushes sent so far followed by the rest from this window. */
  lemma ChunksAdvance(results: map<int, Obj>, s: int, e: int, max: int, limit: int, roleKey: Key,
                      sent: seq<BulkPush>, sent': seq<BulkPush>, total: seq<BulkPush>)
    requires limit >= 1 && s <= max && e == ChunkEnd(s, max, limit)
    requires sent + ChunksFrom(results, s, max, limit, roleKey) == total
    requires sent' == sent + ChunkPushes(ChunkOf(results, s, e), roleKey)
    ensures sent' + ChunksFrom(results, e + 1, max, limit, roleKey) == total
  {
    ChunksStep(results, s, max, limit, roleKey);
    var head := ChunkPushes(ChunkOf(results, s, e), roleKey);
    var tail := ChunksFrom(results, e + 1, max, limit, roleKey);
    assert sent + (head + tail) == (sent + head) + tail;
  }

  /** Past `max` nothing is left to send. */
  lemma ChunksFromPast(results: map<int, Obj>, s: int, max: int, limit: int, roleKey: Key,
                       sent: seq<BulkPush>, total: seq<BulkPush>)
    requires limit >= 1 && s > max
    requires sent + ChunksFrom(results, s, max, limit, roleKey) == total
    ensures sent == total
  {
    assert ChunksFrom(results, s, max, limit, roleKey) == [];
    assert sent + [] == sent;
  }

  lemma {:induction false} ChunksAreSized(results: map<int, Obj>, s: int, max: int, limit: int, roleKey: Key)
    requires limit >= 1
    ensures PushesSized(ChunksFrom(results, s, max, limit, roleKey), roleKey, limit)
    decreases max - s + 1
  {
    if s <= max {
      var e := ChunkEnd(s, max, limit);
      var chunk := ChunkOf(results, s, e);
      ChunksStep(results, s, max, limit, roleKey);
      ChunksAreSized(results, e + 1, max, limit, roleKey);
      WithinInterval(chunk.Keys, s, e + 1);
      assert |chunk.Keys| == |chunk|;
    }
  }

  /** The pushes before and after a split are faithful to a wider range. */
  lemma FaithfulConcat(head: seq<BulkPush>, tail: seq<BulkPush>, results: map<int, Obj>, s: int, t: int, max: int)
    requires s <= t
    requires PushesFaithful(head, results, s, max) && PushesFaithful(tail, results, t, max)
    ensures PushesFaithful(head + tail, results, s, max)
  {
    forall k | 0 <= k < |head + tail| ensures ChunkFaithful((head + tail)[k].results, results, s, max) {
      if k >= |head| {
        assert (head + tail)[k] == tail[k - |head|];
      }
    }
  }

  lemma {:induction false} ChunksAreFaithful(results: map<int, Obj>, s: int, max: int, limit: int, roleKey: Key)
    requires limit >= 1
    ensures PushesFaithful(ChunksFrom(results, s, max, limit, roleKey), results, s, max)
    decreases max - s + 1
  {
    if s <= max {
      var e := ChunkEnd(s, max, limit);
      var chunk := ChunkOf(results, s, e);
      var head := ChunkPushes(chunk, roleKey);
      ChunksStep(results, s, max, limit, roleKey);
      ChunksAreFaithful(results, e + 1, max, limit, roleKey);
      assert ChunkFaithful(chunk, results, s, max);
      assert PushesFaithful(head, results, s, max);
      FaithfulConcat(head, ChunksFrom(results, e + 1, max, limit, roleKey), results, s, e + 1, max);
    }
  }

  /** A split covers `[s, max]` when the head covers `[s, t - 1]` and the tail `[t, max]`. */
  lemma CoverConcat(head: seq<BulkPush>, tail: seq<BulkPush>, results: map<int, Obj>, s: int, t: int, max: int)
    requires PushesCover(head, results, s, t - 1) && PushesCover(tail, results, t, max)
    ensures PushesCover(head + tail, results, s, max)
  {
    forall id | id in results && s <= id <= max ensures exists k :: 0 <= k < |head + tail| && id in (head + tail)[k].results {
      if id < t {
        var k :| 0 <= k < |head| && id in head[k].results;
        assert (head + tail)[k] == head[k];
      } else {
        var k :| 0 <= k < |tail| && id in tail[k].results;
        assert (head + tail)[k + |head|] == tail[k];
      }
    }
  }

  /** The push of one chunk covers the chunk's range. */
  lemma ChunkCovers(results: map<int, Obj>, s: int, e: int, roleKey: Key)
    ensures PushesCover(ChunkPushes(ChunkOf(results, s, e), roleKey), results, s, e)
  {
    var chunk := ChunkOf(results, s, e);
    forall id | id in results && s <= id <= e
      ensures exists k :: 0 <= k < |ChunkPushes(chunk, roleKey)| && id in ChunkPushes(chunk, roleKey)[k].results
    {
      assert id in chunk;
      assert ChunkPushes(chunk, roleKey)[0].results == chunk;
    }
  }

  lemma {:induction false} ChunksCover(results: map<int, Obj>, s: int, max: int, limit: int, roleKey: Key)
    requires limit >= 1
    ensures PushesCover(ChunksFrom(results, s, max, limit, roleKey), results, s, max)
    decreases max - s + 1
  {
    if s <= max {
      var e := ChunkEnd(s, max, limit);
      var chunk := ChunkOf(results, s, e);
      var head := ChunkPushes(chunk, roleKey);
      ChunksStep(results, s, max, limit, roleKey);
      ChunksCover(results, e + 1, max, limit, roleKey);
      ChunkCovers(results, s, e, roleKey);
      CoverConcat(head, ChunksFrom(results, e + 1, max, limit, roleKey), results, s, e + 1, max);
      assert PushesCover(head + ChunksFrom(results, e + 1, max, limit, roleKey), results, s, max);
      assert ChunksFrom(results, s, max, limit, roleKey) == head + ChunksFrom(results, e + 1, max, limit, roleKey);
    }
  }

  lemma {:induction false} ChunksAreDisjoint(results: map<int, Obj>, s: int, max: int, limit: int, roleKey: Key)
    requires limit >= 1
    ensures PushesDisjoint(ChunksFrom(results, s, max, limit, roleKey))
    decreases max - s + 1
  {
    if s <= max {
      var e := ChunkEnd(s, max, limit);
      var chunk := ChunkOf(results, s, e);
      var head := ChunkPushes(chunk, roleKey);
      var tail := ChunksFrom(results, e + 1, max, limit, roleKey);
      var ps := ChunksFrom(results, s, max, limit, roleKey);
      ChunksStep(results, s, max, limit, roleKey);
      ChunksAreDisjoint(results, e + 1, max, limit, roleKey);
      ChunksAreFaithful(results, e + 1, max, limit, roleKey);
      forall k1, k2, id | 0 <= k1 < |ps| && 0 <= k2 < |ps| && id in ps[k1].results && id in ps[k2].results
        ensures k1 == k2
      {
        if k1 >= |head| {
          assert ps[k1] == tail[k1 - |head|];
          assert ChunkFaithful(tail[k1 - |head|].results, results, e + 1, max);
        } else {
          assert ps[k1] == BulkPush(chunk, roleKey);
        }
        if k2 >= |head| {
          assert ps[k2] == tail[k2 - |head|];
          assert ChunkFaithful(tail[k2 - |head|].results, results, e + 1, max);
        } else {
          assert ps[k2] == BulkPush(chunk, roleKey);
        }
      }
    }
  }

  /** The bulk pushes of ids `min..max`: every push carries the client's key
    * and between 1 and `limit` results, each the client's own result for an
    * id in `[min, max]`; every result with an id in `[min, max]` is in
    * exactly one push, and no other result is in any. */
  lemma ChunksPartitionResults(results: map<int, Obj>, min: int, max: int, limit: int, roleKey: Key)
    requires limit >= 1
    ensures PushesSized(ChunksFrom(results, min, max, limit, roleKey), roleKey, limit)
    ensures PushesFaithful(ChunksFrom(results, min, max, limit, roleKey), results, min, max)
    ensures PushesCover(ChunksFrom(results, min, max, limit, roleKey), results, min, max)
    ensures PushesDisjoint(ChunksFrom(results, min, max, limit, roleKey))
  {
    ChunksAreSized(results, min, max, limit, roleKey);
    ChunksAreFaithful(results, min, max, limit, roleKey);
    ChunksCover(results, min, max, limit, roleKey);
    ChunksAreDisjoint(results, min, max, limit, roleKey);
  }

  // ---------------------------------------------------------------- collector fold

  /** The collector fold: `n` applications of the reducer to the pair
    * (accumulator, result), from `acc`, stopping at the first failure. */
  function Fold(reducer: Obj -> Result<Obj>, acc: Obj, result: Obj, n: nat): Result<Obj> {
    if n == 0 then Ok(acc)
    else
      match Fold(reducer, acc, result, n - 1)
      case Err(e) => Err(e)
      case Ok(a) => reducer(ArrayObj([a, result]))
  }

  /** Once a reducer call fails, the fold fails with that error however
    * many prerequisites remain. */
  lemma {:induction false} FoldKeepsFailure(reducer: Obj -> Result<Obj>, acc: Obj, result: Obj, n: nat, m: nat)
    requires n <= m && Fold(reducer, acc, result, n).Err?
    ensures Fold(reducer, acc, result, m) == Fold(reducer, acc, result, n)
    decreases m - n
  {
    if n < m {
      FoldKeepsFailure(reducer, acc, result, n, m - 1);
    }
  }
}
