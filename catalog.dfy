// The job manager's bookkeeping as values: the catalog of pending jobs and
// the per-job counters, and what registration, input gathering and listing
// do to them.  The JobManager class is proved against these definitions.

module Catalog {
  import opened Common
  import opened Jobs
  import opened Messages

  /** The catalog of pending jobs and the counters of every job ever
    * scheduled, both keyed by job id. */
  datatype Books = Books(catalog: map<int, JobInfo>, metas: map<int, JobMetadata>)

  /** Every pending job has counters. */
  predicate Tracked(b: Books) {
    b.catalog.Keys <= b.metas.Keys
  }

  /** The manager's invariant: pending jobs have counters, counters are never
    * negative, and a pending job with a positive redundancy target has fewer
    * completions than its target (it is retired when it reaches it). */
  ghost predicate Inv(b: Books) {
    Tracked(b) &&
    (forall id :: id in b.metas ==> b.metas[id].completionCount >= 0) &&
    (forall id :: id in b.catalog && b.catalog[id].redundancyCount >= 1 ==>
       b.metas[id].completionCount < b.catalog[id].redundancyCount)
  }

  /** A freshly built manager: every scheduled job is pending with zeroed counters. */
  lemma FreshBooksSatisfyInv(b: Books)
    requires b.catalog.Keys == b.metas.Keys
    requires forall id :: id in b.metas ==> b.metas[id] == FreshMetadata
    ensures Inv(b)
  {
  }

  // ---------------------------------------------------------------- prerequisites

  /** Prerequisite `p` blocks its dependants: it is still pending, and either
    * redundancy is enforced or it has no result yet. */
  predicate Pending(b: Books, force: bool, p: int)
    requires Tracked(b)
  {
    p in b.catalog && (force || b.metas[p].completionCount == 0)
  }

  /** No prerequisite blocks. */
  predicate Ready(b: Books, force: bool, prerequisites: set<int>)
    requires Tracked(b)
  {
    forall p :: p in prerequisites ==> !Pending(b, force, p)
  }

  /** A client of role `t` may be given job `id`'s input. */
  predicate Fetchable(b: Books, force: bool, id: int, t: JobType)
    requires Tracked(b)
  {
    id in b.catalog && b.catalog[id].jobType == t && Ready(b, force, b.catalog[id].prerequisites)
  }

  /** With redundancy enforced, a dependant is ready exactly when all its
    * prerequisites have left the catalog; without it, when each one still
    * pending has at least one result. */
  lemma ReadyMeaning(b: Books, force: bool, prerequisites: set<int>)
    requires Inv(b)
    ensures force ==> (Ready(b, force, prerequisites) <==> prerequisites !! b.catalog.Keys)
    ensures !force ==> (Ready(b, force, prerequisites) <==>
              forall p :: p in prerequisites && p in b.catalog ==> b.metas[p].completionCount >= 1)
  {
    if force {
      if Ready(b, force, prerequisites) {
        forall p | p in prerequisites ensures p !in b.catalog.Keys {
          assert !Pending(b, force, p);
        }
      } else {
        var p :| p in prerequisites && Pending(b, force, p);
        assert p in prerequisites && p in b.catalog.Keys;
      }
    }
  }

  // ---------------------------------------------------------------- registration

  /** A result for `id` from a client of role `t` is accepted. */
  predicate Admissible(b: Books, id: int, t: JobType) {
    id in b.metas && id in b.catalog && b.catalog[id].jobType == t
  }

  /** Accepting one more result for `id` retires it. */
  predicate Completes(b: Books, id: int)
    requires id in b.catalog && id in b.metas
  {
    b.catalog[id].redundancyCount == b.metas[id].completionCount + 1
  }

  function Bump(m: JobMetadata): JobMetadata {
    m.(completionCount := m.completionCount + 1)
  }

  /** The books after one result for each id of `ids` was accepted: each
    * counter goes up by one, and the jobs that reach their target leave the
    * catalog; nothing else changes. */
  function Bumped(b: Books, ids: set<int>): Books {
    Books(
      map id | id in b.catalog && !(id in ids && id in b.metas && Completes(b, id)) :: b.catalog[id],
      map id | id in b.metas :: if id in ids then Bump(b.metas[id]) else b.metas[id])
  }

  /** `_registerJobResultInner`: a result for `id` is refused when the id was
    * never scheduled, when the job is retired, or when the role does not
    * match; otherwise it counts once. */
  function RegisterOne(b: Books, id: int, t: JobType): (r: Result<Books>)
    ensures id !in b.metas ==> r == Err(NoScheduledJob(id))
    ensures id in b.metas && id !in b.catalog ==> r == Err(RedundantResult)
    ensures id in b.metas && id in b.catalog && b.catalog[id].jobType != t ==> r == Err(IllSuited)
    ensures r.Ok? <==> Admissible(b, id, t)
    ensures r.Ok? ==> r.value == Bumped(b, {id})
  {
    if id !in b.metas then Err(NoScheduledJob(id))
    else if id !in b.catalog then Err(RedundantResult)
    else if b.catalog[id].jobType != t then Err(IllSuited)
    else
      var m := Bump(b.metas[id]);
      var catalog := if b.catalog[id].redundancyCount == m.completionCount then b.catalog - {id} else b.catalog;
      var r := Books(catalog, b.metas[id := m]);
      assert r.catalog == Bumped(b, {id}).catalog;
      assert r.metas == Bumped(b, {id}).metas;
      Ok(r)
  }

  /** The books after a sequence of registrations, and the first refusal. */
  datatype Registered = Registered(books: Books, failure: Option<Error>)

  /** Registering the ids of `order` one after the other, stopping at the
    * first refusal; the registrations before it stay in effect. */
  function RegisterAll(b: Books, order: seq<int>, t: JobType): Registered
    decreases |order|
  {
    if order == [] then Registered(b, None)
    else
      var prev := RegisterAll(b, order[..|order| - 1], t);
      if prev.failure.Some? then prev
      else match RegisterOne(prev.books, order[|order| - 1], t)
        case Err(e) => Registered(prev.books, Some(e))
        case Ok(next) => Registered(next, None)
  }

  /** A registration preserves the manager's invariant. */
  lemma RegisterOneKeepsInv(b: Books, id: int, t: JobType)
    requires Inv(b)
    ensures RegisterOne(b, id, t).Ok? ==> Inv(RegisterOne(b, id, t).value)
  {
  }

  /** So does a sequence of them, whether or not it is cut short. */
  lemma {:induction false} RegisterAllKeepsInv(b: Books, order: seq<int>, t: JobType)
    requires Inv(b)
    ensures Inv(RegisterAll(b, order, t).books)
    decreases |order|
  {
    if order != [] {
      RegisterAllKeepsInv(b, order[..|order| - 1], t);
      var prev := RegisterAll(b, order[..|order| - 1], t);
      RegisterOneKeepsInv(prev.books, order[|order| - 1], t);
    }
  }

  /** Registrations never forget a job, never lower a counter, and never put
    * a retired job back: the catalog only shrinks. */
  lemma {:induction false} RegisterAllMonotone(b: Books, order: seq<int>, t: JobType)
    ensures RegisterAll(b, order, t).books.metas.Keys == b.metas.Keys
    ensures forall id :: id in b.metas ==>
              RegisterAll(b, order, t).books.metas[id].completionCount >= b.metas[id].completionCount
    ensures RegisterAll(b, order, t).books.catalog.Keys <= b.catalog.Keys
    ensures forall id :: id in RegisterAll(b, order, t).books.catalog ==>
              RegisterAll(b, order, t).books.catalog[id] == b.catalog[id]
    decreases |order|
  {
    if order != [] {
      RegisterAllMonotone(b, order[..|order| - 1], t);
    }
  }

  /** Bumping no id changes nothing. */
  lemma BumpedNothing(b: Books)
    ensures Bumped(b, {}) == b
  {
    assert Bumped(b, {}).catalog == b.catalog;
    assert Bumped(b, {}).metas == b.metas;
  }

  /** One more id `x`, not yet bumped: it is admissible after the others
    * exactly when it was before, and bumping it completes the set. */
  lemma BumpedStep(b: Books, s: set<int>, x: int, t: JobType)
    requires x !in s
    ensures Admissible(Bumped(b, s), x, t) <==> Admissible(b, x, t)
    ensures Admissible(b, x, t) ==> Bumped(Bumped(b, s), {x}) == Bumped(b, s + {x})
  {
    var bs := Bumped(b, s);
    if Admissible(b, x, t) {
      var next := Bumped(bs, {x});
      assert next.catalog == Bumped(b, s + {x}).catalog;
      assert next.metas == Bumped(b, s + {x}).metas;
    }
  }

  /** Registering distinct ids succeeds exactly when each of them is
    * admissible on its own, and then the outcome is the same in whatever
    * order the ids come: one more completion for each, with the jobs that
    * reach their target retired. */
  lemma {:induction false} RegisterAllIsBumped(b: Books, order: seq<int>, t: JobType)
    requires Distinct(order)
    ensures RegisterAll(b, order, t).failure.None? <==> AllAdmissible(b, order, t)
    ensures RegisterAll(b, order, t).failure.None? ==>
              RegisterAll(b, order, t).books == Bumped(b, set x | x in order)
    decreases |order|
  {
    if order == [] {
      BumpedNothing(b);
    } else {
      var front := order[..|order| - 1];
      var x := order[|order| - 1];
      DistinctLast(order);
      RegisterAllIsBumped(b, front, t);
      AllAdmissibleSnoc(b, order, t);
      var prev := RegisterAll(b, front, t);
      var s := set y | y in front;
      assert (set y | y in order) == s + {x};
      if prev.failure.None? {
        BumpedStep(b, s, x, t);
      }
    }
  }

  /** Each id of `order` is admissible on its own. */
  predicate AllAdmissible(b: Books, order: seq<int>, t: JobType) {
    forall i :: 0 <= i < |order| ==> Admissible(b, order[i], t)
  }

  /** The ids of a non-empty sequence are admissible exactly when those
    * before the last one are and the last one is. */
  lemma AllAdmissibleSnoc(b: Books, order: seq<int>, t: JobType)
    requires order != []
    ensures AllAdmissible(b, order, t) <==>
              AllAdmissible(b, order[..|order| - 1], t) && Admissible(b, order[|order| - 1], t)
  {
    var front := order[..|order| - 1];
    assert forall i :: 0 <= i < |front| ==> order[i] == front[i];
  }

  // ---------------------------------------------------------------- bulk inputs

  /** The ids `lo, lo + 1, ..., hi - 1`; empty when `lo >= hi`. */
  function Range(lo: int, hi: int): (r: seq<int>)
    ensures |r| == if lo < hi then hi - lo else 0
    decreases hi - lo
  {
    if lo >= hi then [] else Range(lo, hi - 1) + [hi - 1]
  }

  /** The ids of `Range(lo, hi)` are `lo, lo + 1, ..., hi - 1` in order. */
  lemma {:induction false} RangeCounts(lo: int, hi: int)
    ensures forall i :: 0 <= i < |Range(lo, hi)| ==> Range(lo, hi)[i] == lo + i
    decreases hi - lo
  {
    if lo < hi {
      RangeCounts(lo, hi - 1);
    }
  }

  /** The answer to a bulk input request for `ids`, visited in order: the
    * input of every fetchable id, and one failure for every other. */
  function Gather(b: Books, force: bool, ids: seq<int>, t: JobType): BulkInputs
    requires Tracked(b)
    decreases |ids|
  {
    if ids == [] then BulkInputs(map[], 0)
    else
      var prev := Gather(b, force, ids[..|ids| - 1], t);
      var id := ids[|ids| - 1];
      if Fetchable(b, force, id, t) then BulkInputs(prev.inputs[id := b.catalog[id].jobData], prev.fetchFails)
      else BulkInputs(prev.inputs, prev.fetchFails + 1)
  }

  /** One more id visited: served if fetchable, else counted as a failure. */
  lemma GatherSnoc(b: Books, force: bool, ids: seq<int>, id: int, t: JobType)
    requires Tracked(b)
    ensures Fetchable(b, force, id, t) ==>
              Gather(b, force, ids + [id], t).inputs == Gather(b, force, ids, t).inputs[id := b.catalog[id].jobData] &&
              Gather(b, force, ids + [id], t).fetchFails == Gather(b, force, ids, t).fetchFails
    ensures !Fetchable(b, force, id, t) ==>
              Gather(b, force, ids + [id], t).inputs == Gather(b, force, ids, t).inputs &&
              Gather(b, force, ids + [id], t).fetchFails == Gather(b, force, ids, t).fetchFails + 1
  {
    assert (ids + [id])[..|ids + [id]| - 1] == ids;
  }

  /** The loop step of serving ids one by one: extending the visited ids by
    * `id` serves `data` when the job is fetchable and otherwise counts one
    * more failure. */
  lemma GatherStep(b: Books, force: bool, ids: seq<int>, id: int, t: JobType, ok: bool, data: Obj)
    requires Tracked(b)
    requires ok == Fetchable(b, force, id, t) && (ok ==> id in b.catalog && data == b.catalog[id].jobData)
    ensures Gather(b, force, ids + [id], t) ==
              (if ok then Gather(b, force, ids, t).(inputs := Gather(b, force, ids, t).inputs[id := data])
               else Gather(b, force, ids, t).(fetchFails := Gather(b, force, ids, t).fetchFails + 1))
  {
    GatherSnoc(b, force, ids, id, t);
  }

  /** A bulk answer serves exactly the fetchable ids, with each job's own
    * input, and counts at most one failure per id; for distinct ids every id
    * is either served or counted as a failure. */
  lemma {:induction false} GatherServesFetchableIds(b: Books, force: bool, ids: seq<int>, t: JobType)
    requires Tracked(b)
    ensures forall id :: id in Gather(b, force, ids, t).inputs <==> id in ids && Fetchable(b, force, id, t)
    ensures forall id :: id in Gather(b, force, ids, t).inputs ==>
              id in b.catalog && Gather(b, force, ids, t).inputs[id] == b.catalog[id].jobData
    ensures 0 <= Gather(b, force, ids, t).fetchFails <= |ids|
    ensures Distinct(ids) ==> |Gather(b, force, ids, t).inputs| + Gather(b, force, ids, t).fetchFails == |ids|
    decreases |ids|
  {
    if ids != [] {
      var front := ids[..|ids| - 1];
      var id := ids[|ids| - 1];
      GatherServesFetchableIds(b, force, front, t);
      assert forall x :: x in ids <==> x in front || x == id;
      if Distinct(ids) {
        DistinctLast(ids);
        var prev := Gather(b, force, front, t);
        if Fetchable(b, force, id, t) {
          assert id !in prev.inputs;
          assert prev.inputs[id := b.catalog[id].jobData].Keys == prev.inputs.Keys + {id};
        }
      }
    }
  }

  // ---------------------------------------------------------------- listing

  /** Strictly ascending. */
  predicate Increasing(xs: seq<int>) {
    forall i, j :: 0 <= i < j < |xs| ==> xs[i] < xs[j]
  }

  /** `m` is the least element of `s`. */
  predicate IsLeast(m: int, s: set<int>) {
    m in s && forall x :: x in s ==> m <= x
  }

  lemma LeastOfSingleton(s: set<int>, y: int)
    requires y in s && s - {y} == {}
    ensures IsLeast(y, s)
  {
    forall x | x in s ensures y <= x {
      assert x !in s - {y};
    }
  }

  lemma LeastOfInsert(s: set<int>, y: int, m: int)
    requires y in s && IsLeast(m, s - {y})
    ensures IsLeast(if y < m then y else m, s)
  {
    forall x | x in s ensures (if y < m then y else m) <= x {
      if x != y { assert x in s - {y}; }
    }
  }

  /** Every non-empty finite set of ids has a least element. */
  lemma {:induction false} LeastExists(s: set<int>)
    requires s != {}
    ensures exists m :: IsLeast(m, s)
    decreases |s|
  {
    HasElement(s);
    var y :| y in s;
    var rest := s - {y};
    if rest == {} {
      LeastOfSingleton(s, y);
    } else {
      LeastExists(rest);
      var m :| IsLeast(m, rest);
      LeastOfInsert(s, y, m);
    }
  }

  /** The least element of a non-empty set of ids. */
  function Least(s: set<int>): (m: int)
    requires s != {}
    ensures m in s && forall x :: x in s ==> m <= x
  {
    LeastExists(s);
    var m :| IsLeast(m, s);
    m
  }

  /** The ids of `s` in ascending order, as a sorted map iterates its keys. */
  function Ascending(s: set<int>): (r: seq<int>)
    ensures |r| == |s|
    decreases s
  {
    if s == {} then []
    else
      var m := Least(s);
      [m] + Ascending(s - {m})
  }

  /** `Ascending(s)` lists exactly the ids of `s`, each smaller than the next. */
  lemma {:induction false} AscendingMeaning(s: set<int>)
    ensures forall x :: x in Ascending(s) <==> x in s
    ensures Increasing(Ascending(s))
    decreases s
  {
    if s != {} {
      var m := Least(s);
      var rest := Ascending(s - {m});
      AscendingMeaning(s - {m});
      assert Ascending(s) == [m] + rest;
      forall i | 0 <= i < |rest| ensures m < rest[i] {
        assert rest[i] in rest;
      }
    }
  }

  /** The pending ids from `minId` on, ascending: the keys of the catalog's tail map. */
  function TailIds(b: Books, minId: int): (r: seq<int>)
    ensures forall x :: x in r <==> x in b.catalog && x >= minId
    ensures Increasing(r)
  {
    AscendingMeaning(set id | id in b.catalog && id >= minId);
    Ascending(set id | id in b.catalog && id >= minId)
  }

  /** The ids of `order` whose job has type `t`, in the same order. */
  function OfType(order: seq<int>, catalog: map<int, JobInfo>, t: JobType): (r: seq<int>)
    ensures forall x :: x in r <==> x in order && x in catalog && catalog[x].jobType == t
    ensures Increasing(order) ==> Increasing(r)
    decreases |order|
  {
    if order == [] then []
    else
      var front := order[..|order| - 1];
      var x := order[|order| - 1];
      var rest := OfType(front, catalog, t);
      if x in catalog && catalog[x].jobType == t then
        assert Increasing(order) ==> forall i :: 0 <= i < |rest| ==> rest[i] in front && rest[i] < x by {
          if Increasing(order) {
            forall i | 0 <= i < |rest| ensures rest[i] in front && rest[i] < x {
              assert rest[i] in rest;
              var j :| 0 <= j < |front| && front[j] == rest[i];
              assert order[j] == front[j];
            }
          }
        }
        rest + [x]
      else rest
  }

  lemma {:induction false} OfTypeAppend(a: seq<int>, c: seq<int>, catalog: map<int, JobInfo>, t: JobType)
    ensures OfType(a + c, catalog, t) == OfType(a, catalog, t) + OfType(c, catalog, t)
    decreases |c|
  {
    if c == [] {
      assert a + c == a;
    } else {
      var c' := c[..|c| - 1];
      assert (a + c)[..|a + c| - 1] == a + c';
      OfTypeAppend(a, c', catalog, t);
    }
  }

  /** One more id of `order` adds itself to the typed prefix when its job has type `t`. */
  lemma OfTypePrefixStep(order: seq<int>, k: int, catalog: map<int, JobInfo>, t: JobType)
    requires 0 <= k < |order|
    ensures OfType(order[..k + 1], catalog, t) ==
              OfType(order[..k], catalog, t) +
              (if order[k] in catalog && catalog[order[k]].jobType == t then [order[k]] else [])
  {
    assert order[..k + 1][..k] == order[..k];
  }

  /** Scanning `order` until `limit` typed ids are found, or to its end,
    * yields the first `limit` ids of type `t`. */
  lemma OfTypePrefixIsTaken(order: seq<int>, k: int, catalog: map<int, JobInfo>, t: JobType, limit: int)
    requires 0 <= k <= |order|
    requires |OfType(order[..k], catalog, t)| == 0 || |OfType(order[..k], catalog, t)| <= limit
    requires k == |order| || |OfType(order[..k], catalog, t)| >= limit
    ensures OfType(order[..k], catalog, t) == Take(OfType(order, catalog, t), limit)
  {
    if k < |order| {
      assert order == order[..k] + order[k..];
      OfTypeAppend(order[..k], order[k..], catalog, t);
    } else {
      assert order[..k] == order;
    }
  }

  /** The ids a listing returns: the first `limit` pending ids from `minId`
    * on, of type `t` unless the lister is an auditor, who sees every type. */
  function Listed(b: Books, minId: int, limit: int, t: JobType, audit: bool): seq<int> {
    var order := TailIds(b, minId);
    if audit then Take(order, limit) else Take(OfType(order, b.catalog, t), limit)
  }

  /** What a listing promises: at most `limit` ids, all pending, from
    * `minId` on and of the right type, ascending; and no eligible id is
    * skipped, so an id left out means the listing is full and every listed
    * id is smaller. */
  lemma ListingIsLeastEligibleIds(b: Books, minId: int, limit: int, t: JobType, audit: bool)
    ensures limit >= 0 ==> |Listed(b, minId, limit, t, audit)| <= limit
    ensures forall x :: x in Listed(b, minId, limit, t, audit) ==>
              x in b.catalog && x >= minId && (audit || b.catalog[x].jobType == t)
    ensures Increasing(Listed(b, minId, limit, t, audit))
    ensures forall x :: (x in b.catalog && x >= minId && (audit || b.catalog[x].jobType == t) &&
                         x !in Listed(b, minId, limit, t, audit)) ==>
                |Listed(b, minId, limit, t, audit)| >= limit &&
                forall i :: 0 <= i < |Listed(b, minId, limit, t, audit)| ==> Listed(b, minId, limit, t, audit)[i] < x
  {
    var order := TailIds(b, minId);
    var eligible := if audit then order else OfType(order, b.catalog, t);
    var ids := Take(eligible, limit);
    assert ids == Listed(b, minId, limit, t, audit);
    assert Increasing(eligible);
    forall i | 0 <= i < |ids| ensures ids[i] in eligible {
      assert ids[i] == eligible[i];
    }
    forall x | x in b.catalog && x >= minId && (audit || b.catalog[x].jobType == t) && x !in ids
      ensures |ids| >= limit && forall i :: 0 <= i < |ids| ==> ids[i] < x
    {
      assert x in eligible;
      var j :| 0 <= j < |eligible| && eligible[j] == x;
      assert j >= |ids|;
      forall i | 0 <= i < |ids| ensures ids[i] < x {
        assert ids[i] == eligible[i];
      }
    }
  }
}
