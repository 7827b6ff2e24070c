// Result storage as the servlet uses it.  The concrete store is abstracted
// to a map from job id to the results stored for it, oldest first, with a
// log of the single puts performed; whether a write succeeds is a parameter.

module Storage {
  import opened Common
  import opened Messages

  /** The results stored for job `id` (none when it has no entry). */
  function Stored(results: map<int, seq<Obj>>, id: int): (r: seq<Obj>)
    ensures id in results ==> r == results[id]
    ensures id !in results ==> r == []
  {
    if id in results then results[id] else []
  }

  /** The store after the single put `p`: its result is appended to its job's. */
  function Append(results: map<int, seq<Obj>>, p: PushResult): map<int, seq<Obj>> {
    results[p.jobId := Stored(results, p.jobId) + [p.resultObject]]
  }

  /** A single put appends its result to its own job's results, gives that
    * job an entry, and changes no other job's results. */
  lemma AppendStoresOneResult(results: map<int, seq<Obj>>, p: PushResult)
    ensures Stored(Append(results, p), p.jobId) == Stored(results, p.jobId) + [p.resultObject]
    ensures forall id :: id != p.jobId ==> Stored(Append(results, p), id) == Stored(results, id)
    ensures Append(results, p).Keys == results.Keys + {p.jobId}
  {
  }

  /** The store after the single puts `ps`, in order. */
  function AppendAll(results: map<int, seq<Obj>>, ps: seq<PushResult>): map<int, seq<Obj>>
    decreases |ps|
  {
    if ps == [] then results else Append(AppendAll(results, ps[..|ps| - 1]), ps[|ps| - 1])
  }

  /** The single puts a bulk push turns into, one per job id of `order`,
    * each carrying the push's role key and that job's result. */
  function Puts(bp: BulkPush, order: seq<int>): (r: seq<PushResult>)
    requires Listed(bp, order)
    ensures |r| == |order|
    decreases |order|
  {
    if order == [] then []
    else Puts(bp, order[..|order| - 1]) + [PushResult(order[|order| - 1], bp.roleKey, bp.results[order[|order| - 1]])]
  }

  /** The `i`-th single put carries the `i`-th job id, its result in the
    * push and the push's role key. */
  lemma {:induction false} PutsCarryEntries(bp: BulkPush, order: seq<int>)
    requires Listed(bp, order)
    ensures forall i :: 0 <= i < |order| ==> Puts(bp, order)[i] == PushResult(order[i], bp.roleKey, bp.results[order[i]])
    decreases |order|
  {
    if order != [] {
      PutsCarryEntries(bp, order[..|order| - 1]);
    }
  }

  lemma AppendAllSnoc(results: map<int, seq<Obj>>, ps: seq<PushResult>, p: PushResult)
    ensures AppendAll(results, ps + [p]) == Append(AppendAll(results, ps), p)
  {
    assert (ps + [p])[..|ps + [p]| - 1] == ps;
  }

  lemma PutsSnoc(bp: BulkPush, order: seq<int>, id: int)
    requires Listed(bp, order) && id in bp.results
    ensures Listed(bp, order + [id])
    ensures Puts(bp, order + [id]) == Puts(bp, order) + [PushResult(id, bp.roleKey, bp.results[id])]
  {
    assert (order + [id])[..|order + [id]| - 1] == order;
  }

  /** Storing the puts of a bulk push, each job at most once, appends each
    * listed job's result to that job's results exactly once and leaves every
    * other job's results alone. */
  lemma {:induction false} BulkPutAppendsEachEntryOnce(results: map<int, seq<Obj>>, bp: BulkPush, order: seq<int>)
    requires Distinct(order) && Listed(bp, order)
    ensures forall id :: Stored(AppendAll(results, Puts(bp, order)), id) ==
                           Stored(results, id) + (if id in order then [bp.results[id]] else [])
    decreases |order|
  {
    if order != [] {
      var front := order[..|order| - 1];
      var last := order[|order| - 1];
      DistinctLast(order);
      BulkPutAppendsEachEntryOnce(results, bp, front);
      assert Puts(bp, order)[..|order| - 1] == Puts(bp, front);
      AppendStoresOneResult(AppendAll(results, Puts(bp, front)), PushResult(last, bp.roleKey, bp.results[last]));
      forall id ensures Stored(AppendAll(results, Puts(bp, order)), id) ==
                          Stored(results, id) + (if id in order then [bp.results[id]] else [])
      {
        assert id in order <==> id in front || id == last;
      }
    }
  }

  /** Every id of `order` is a job of the push. */
  predicate Listed(bp: BulkPush, order: seq<int>) {
    forall i :: 0 <= i < |order| ==> order[i] in bp.results
  }

  /** The state of the bulk store loop: `order` holds the jobs stored so far,
    * once each and none failing, `rest` the jobs still to store. */
  ghost predicate Progress(bp: BulkPush, failing: set<int>, rest: set<int>, order: seq<int>) {
    rest <= bp.results.Keys && Distinct(order) && Listed(bp, order) &&
    (forall i :: 0 <= i < |order| ==> order[i] !in rest && order[i] !in failing) &&
    (forall id :: id in bp.results ==> id in rest || id in order)
  }

  lemma ProgressStep(bp: BulkPush, failing: set<int>, rest: set<int>, order: seq<int>, id: int)
    requires Progress(bp, failing, rest, order) && id in rest && id !in failing
    ensures Progress(bp, failing, rest - {id}, order + [id])
  {
  }

  lemma ProgressFails(bp: BulkPush, failing: set<int>, rest: set<int>, order: seq<int>, id: int)
    requires Progress(bp, failing, rest, order) && id in rest && id in failing
    ensures Distinct(order + [id]) && Listed(bp, order + [id]) && (order + [id])[..|order|] == order
    ensures forall i :: 0 <= i < |order + [id]| - 1 ==> (order + [id])[i] !in failing
    ensures exists j :: j in bp.results && j in failing
  {
  }

  lemma ProgressDone(bp: BulkPush, failing: set<int>, order: seq<int>)
    requires Progress(bp, failing, {}, order)
    ensures forall id :: id in bp.results ==> id in order && id !in failing
  {
    forall id | id in bp.results ensures id in order && id !in failing {
      var k :| 0 <= k < |order| && order[k] == id;
    }
  }

  class ObjectStore {
    /** The results stored so far, by job id. */
    var results: map<int, seq<Obj>>
    /** The single puts performed so far, oldest first. */
    ghost var puts: seq<PushResult>

    constructor ()
      ensures results == map[] && puts == []
    {
      results := map[];
      puts := [];
    }

    /** `putResult`: stores one result; `ioOk` is whether the concrete
      * store's write succeeds.  A failed write stores nothing. */
    method PutResult(p: PushResult, ioOk: bool) returns (r: Result<()>)
      modifies this`results, this`puts
      ensures r.Ok? <==> ioOk
      ensures r.Err? ==> r.error.IOFailure? && results == old(results) && puts == old(puts)
      ensures r.Ok? ==> results == Append(old(results), p) && puts == old(puts) + [p]
    {
      if !ioOk {
        return Err(IOFailure("write failed"));
      }
      results := Append(results, p);
      puts := puts + [p];
      return Ok(());
    }

    /** `putResultsBulk`: one single put per entry of the push, in the
      * map's (unspecified) iteration order `order`, stopping at the first
      * write that fails (writes for the ids in `failing` fail); the writes
      * before it stay.  On success every entry was stored exactly once. */
    method PutResultsBulk(bp: BulkPush, failing: set<int>) returns (r: Result<()>, ghost order: seq<int>)
      modifies this`results, this`puts
      ensures Distinct(order) && Listed(bp, order)
      ensures r.Err? ==> order != [] && order[|order| - 1] in failing && r.error.IOFailure?
      ensures r.Ok? ==> puts == old(puts) + Puts(bp, order) && results == AppendAll(old(results), Puts(bp, order))
      ensures r.Err? ==> puts == old(puts) + Puts(bp, order[..|order| - 1]) &&
                         results == AppendAll(old(results), Puts(bp, order[..|order| - 1]))
      ensures r.Ok? <==> forall id :: id in bp.results ==> id !in failing
      ensures r.Ok? ==> forall id :: id in bp.results ==> id in order
      ensures forall i :: 0 <= i < |order| - 1 ==> order[i] !in failing
    {
      order := [];
      var rest := bp.GetJobs();
      while rest != {}
        invariant Progress(bp, failing, rest, order)
        invariant puts == old(puts) + Puts(bp, order) && results == AppendAll(old(results), Puts(bp, order))
        decreases rest
      {
        HasElement(rest);
        var id :| id in rest;
        var p := PushResult(id, bp.roleKey, bp.results[id]);
        PutsSnoc(bp, order, id);
        AppendAllSnoc(old(results), Puts(bp, order), p);
        var step := PutResult(p, id !in failing);
        if step.Err? {
          ProgressFails(bp, failing, rest, order, id);
          order := order + [id];
          return step, order;
        }
        ProgressStep(bp, failing, rest, order, id);
        order := order + [id];
        rest := rest - {id};
      }
      ProgressDone(bp, failing, order);
      return Ok(()), order;
    }
  }
}
