// The servlet's job manager: role resolution, listings, input fetches,
// result registration and inspection checks over the catalog of pending
// jobs.  Each operation is proved against the value-level definitions of
// the Catalog module.

module JobManagers {
  import opened Common
  import opened Jobs
  import opened Messages
  import opened Catalog

  class JobManager {
    /** Program id to the path of its program archive. */
    var jarMap: map<int, string>
    /** Pending jobs by id (a sorted map in the servlet). */
    var jobInfo: map<int, JobInfo>
    /** Counters of every scheduled job by id. */
    var jobMetas: map<int, JobMetadata>
    /** Role key to the job type its holders may take. */
    var keyMap: map<Key, JobType>
    /** Unknown keys are treated as SLOG keys. */
    var admitAnySlogger: bool
    /** A prerequisite blocks until it has reached its redundancy target. */
    var forceRedundance: bool
    /** Largest bulk input request, by the size rule of `RequestSize`. */
    var bulkLimit: Int32
    /** Largest number of jobs in one bulk push. */
    var bulkPushLimit: Int32

    /** The catalog and counters as a value. */
    function State(): Books
      reads this
    {
      Books(jobInfo, jobMetas)
    }

    ghost predicate Valid()
      reads this
    {
      Inv(State())
    }

    /** The manager builder fills every field. */
    constructor (jarMap: map<int, string>, jobInfo: map<int, JobInfo>, jobMetas: map<int, JobMetadata>,
                 keyMap: map<Key, JobType>, admitAnySlogger: bool, forceRedundance: bool,
                 bulkLimit: Int32, bulkPushLimit: Int32)
      ensures this.jarMap == jarMap && this.jobInfo == jobInfo && this.jobMetas == jobMetas
      ensures this.keyMap == keyMap && this.admitAnySlogger == admitAnySlogger
      ensures this.forceRedundance == forceRedundance
      ensures this.bulkLimit == bulkLimit && this.bulkPushLimit == bulkPushLimit
    {
      this.jarMap := jarMap;
      this.jobInfo := jobInfo;
      this.jobMetas := jobMetas;
      this.keyMap := keyMap;
      this.admitAnySlogger := admitAnySlogger;
      this.forceRedundance := forceRedundance;
      this.bulkLimit := bulkLimit;
      this.bulkPushLimit := bulkPushLimit;
    }

    /** The job type a key grants: its own entry, else SLOG when unknown keys
      * are admitted, else an error.  The wildcard never grants more than SLOG. */
    function SuitableJobType(key: Key): (r: Result<JobType>)
      reads this
      ensures r.Ok? <==> key in keyMap || admitAnySlogger
      ensures r.Err? ==> r.error == UnknownKey
      ensures key in keyMap ==> r == Ok(keyMap[key])
      ensures r.Ok? && r.value != SLOG ==> key in keyMap && keyMap[key] == r.value
    {
      if key in keyMap then Ok(keyMap[key])
      else if admitAnySlogger then Ok(SLOG)
      else Err(UnknownKey)
    }

    /** The archive path of a program; `None` is a null path. */
    function JarOf(programId: int): (r: Option<string>)
      reads this
      ensures r.Some? <==> programId in jarMap
      ensures r.Some? ==> r.value == jarMap[programId]
    {
      if programId in jarMap then Some(jarMap[programId]) else None
    }

    /** `verifyPrerequisites`: refuses, naming one of them, when some
      * prerequisite still blocks. */
    method VerifyPrerequisites(prerequisites: set<int>) returns (r: Result<()>)
      requires Tracked(State())
      ensures r.Ok? <==> Ready(State(), forceRedundance, prerequisites)
      ensures r.Err? ==> r.error.PrerequisitePending? && r.error.id in prerequisites &&
                         Pending(State(), forceRedundance, r.error.id)
    {
      var rest := prerequisites;
      while rest != {}
        invariant rest <= prerequisites
        invariant forall p :: p in prerequisites && p !in rest ==> !Pending(State(), forceRedundance, p)
        decreases rest
      {
        HasElement(rest);
        var p :| p in rest;
        if p in jobInfo && (forceRedundance || jobMetas[p].completionCount == 0) {
          return Err(PrerequisitePending(p));
        }
        rest := rest - {p};
      }
      return Ok(());
    }

    /** `_fetchJobInfoPairInner`: the archive path and input of a pending job
      * of the given type whose prerequisites are done. */
    method FetchInner(jobId: int, t: JobType) returns (r: Result<(Option<string>, Obj)>)
      requires Tracked(State())
      ensures jobId !in jobInfo ==> r == Err(NoPendingJob(jobId))
      ensures jobId in jobInfo && jobInfo[jobId].jobType != t ==> r == Err(IllSuited)
      ensures r.Ok? <==> Fetchable(State(), forceRedundance, jobId, t)
      ensures r.Ok? ==> r.value == (JarOf(jobInfo[jobId].programId), jobInfo[jobId].jobData)
      ensures r.Err? && jobId in jobInfo && jobInfo[jobId].jobType == t ==>
                r.error.PrerequisitePending? && r.error.id in jobInfo[jobId].prerequisites
    {
      if jobId !in jobInfo {
        return Err(NoPendingJob(jobId));
      }
      var info := jobInfo[jobId];
      if t != info.jobType {
        return Err(IllSuited);
      }
      var ready := VerifyPrerequisites(info.prerequisites);
      if ready.Err? {
        return Err(ready.error);
      }
      return Ok((JarOf(info.programId), info.jobData));
    }

    /** `fetchJobInfoPair`: resolves the role, then fetches. */
    method FetchJobInfoPair(req: JarRequest) returns (r: Result<(Option<string>, Obj)>)
      requires Tracked(State())
      ensures SuitableJobType(req.roleKey).Err? ==> r == Err(UnknownKey)
      ensures r.Ok? <==> SuitableJobType(req.roleKey).Ok? &&
                         Fetchable(State(), forceRedundance, req.jobId, SuitableJobType(req.roleKey).value)
      ensures r.Ok? ==> r.value == (JarOf(jobInfo[req.jobId].programId), jobInfo[req.jobId].jobData)
    {
      var t := SuitableJobType(req.roleKey);
      if t.Err? {
        return Err(t.error);
      }
      r := FetchInner(req.jobId, t.value);
    }

    /** The auditor's listing: the first `limit` ids of `order` with their
      * masked infos and counters. */
    method ListAll(order: seq<int>, limit: int) returns (ids: seq<int>, infos: seq<JobInfo>, metas: seq<Option<JobMetadata>>)
      requires forall x :: x in order ==> x in jobInfo
      ensures ids == Take(order, limit) && |infos| == |ids| && |metas| == |ids|
      ensures forall i :: 0 <= i < |ids| ==> ids[i] in jobInfo && infos[i] == MaskedClone(jobInfo[ids[i]])
      ensures forall i :: 0 <= i < |ids| ==>
                metas[i] == (if ids[i] in jobMetas then Some(jobMetas[ids[i]]) else None)
    {
      ids, infos, metas := [], [], [];
      var k := 0;
      while k < |order| && |ids| < limit
        invariant 0 <= k <= |order|
        invariant k == 0 || k <= limit
        invariant ids == order[..k] && |infos| == k && |metas| == k
        invariant forall i :: 0 <= i < k ==> order[i] in jobInfo && infos[i] == MaskedClone(jobInfo[order[i]])
        invariant forall i :: 0 <= i < k ==>
                    metas[i] == (if order[i] in jobMetas then Some(jobMetas[order[i]]) else None)
      {
        var id := order[k];
        assert id in order;
        ids := ids + [id];
        infos := infos + [MaskedClone(jobInfo[id])];
        metas := metas + [if id in jobMetas then Some(jobMetas[id]) else None];
        k := k + 1;
      }
    }

    /** A client's listing: the first `limit` ids of `order` whose job has
      * type `t`, with their masked infos. */
    method ListOfType(order: seq<int>, t: JobType, limit: int) returns (ids: seq<int>, infos: seq<JobInfo>)
      requires forall x :: x in order ==> x in jobInfo
      ensures ids == Take(OfType(order, jobInfo, t), limit) && |infos| == |ids|
      ensures forall i :: 0 <= i < |ids| ==> ids[i] in jobInfo && infos[i] == MaskedClone(jobInfo[ids[i]])
    {
      ids, infos := [], [];
      var k := 0;
      while k < |order| && |ids| < limit
        invariant 0 <= k <= |order|
        invariant ids == OfType(order[..k], jobInfo, t)
        invariant |ids| == 0 || |ids| <= limit
        invariant |infos| == |ids|
        invariant forall i :: 0 <= i < |ids| ==> ids[i] in jobInfo && infos[i] == MaskedClone(jobInfo[ids[i]])
      {
        var id := order[k];
        assert id in order;
        OfTypePrefixStep(order, k, jobInfo, t);
        if t == jobInfo[id].jobType {
          ids := ids + [id];
          infos := infos + [MaskedClone(jobInfo[id])];
        }
        k := k + 1;
      }
      OfTypePrefixIsTaken(order, k, jobInfo, t, limit);
    }

    /** `listJobs`: the first `limit` pending jobs with ids from
      * `minPriority` on, in ascending id order, as masked clones.  A client
      * sees the jobs of its own type; an auditor (who must present a key)
      * sees all types, with their counters. */
    method ListJobs(req: JobRequest) returns (r: Result<Joblisting>)
      ensures SuitableJobType(req.roleKey).Err? ==> r == Err(UnknownKey)
      ensures SuitableJobType(req.roleKey).Ok? ==> r.Ok?
      ensures r.Ok? ==>
        var t := SuitableJobType(req.roleKey).value;
        var audit := req.roleKey.Some? && t == AUDIT;
        r.value.WellFormed() &&
        r.value.ids == Listed(State(), req.minPriority, req.limit, t, audit) &&
        (forall i :: 0 <= i < |r.value.ids| ==>
           r.value.ids[i] in jobInfo && r.value.infos[i] == MaskedClone(jobInfo[r.value.ids[i]])) &&
        (r.value.meta.Some? <==> audit) &&
        (audit ==> forall i :: 0 <= i < |r.value.ids| ==>
           r.value.meta.value[i] == (if r.value.ids[i] in jobMetas then Some(jobMetas[r.value.ids[i]]) else None))
    {
      var order := TailIds(State(), req.minPriority);
      var role := SuitableJobType(req.roleKey);
      if role.Err? {
        return Err(role.error);
      }
      var t := role.value;
      if req.roleKey.Some? && t == AUDIT {
        var ids, infos, metas := ListAll(order, req.limit);
        return Ok(Joblisting(ids, infos, Some(metas)));
      }
      var ids, infos := ListOfType(order, t, req.limit);
      return Ok(Joblisting(ids, infos, None));
    }

    /** `_registerJobResultInner`: one result counted against the job, which
      * is retired when it reaches its redundancy target. */
    method RegisterInner(jobId: int, t: JobType) returns (r: Result<()>)
      requires Valid()
      modifies this`jobInfo, this`jobMetas
      ensures Valid()
      ensures RegisterOne(old(State()), jobId, t).Err? ==>
                r == Err(RegisterOne(old(State()), jobId, t).error) && State() == old(State())
      ensures RegisterOne(old(State()), jobId, t).Ok? ==>
                r == Ok(()) && State() == RegisterOne(old(State()), jobId, t).value
    {
      if jobId !in jobMetas {
        return Err(NoScheduledJob(jobId));
      }
      var meta := jobMetas[jobId];
      if jobId !in jobInfo {
        return Err(RedundantResult);
      }
      var info := jobInfo[jobId];
      if t != info.jobType {
        return Err(IllSuited);
      }
      RegisterOneKeepsInv(State(), jobId, t);
      meta := meta.(completionCount := meta.completionCount + 1);
      jobMetas := jobMetas[jobId := meta];
      if info.redundancyCount == meta.completionCount {
        jobInfo := jobInfo - {jobId};
      }
      return Ok(());
    }

    /** `registerJobResult`: resolves the role, then counts the result. */
    method RegisterJobResult(msg: PushResult) returns (r: Result<()>)
      requires Valid()
      modifies this`jobInfo, this`jobMetas
      ensures Valid()
      ensures SuitableJobType(msg.roleKey).Err? ==> r == Err(UnknownKey) && State() == old(State())
      ensures SuitableJobType(msg.roleKey).Ok? ==>
        var reg := RegisterOne(old(State()), msg.jobId, SuitableJobType(msg.roleKey).value);
        (reg.Err? ==> r == Err(reg.error) && State() == old(State())) &&
        (reg.Ok? ==> r == Ok(()) && State() == reg.value)
    {
      var t := SuitableJobType(msg.roleKey);
      if t.Err? {
        return Err(t.error);
      }
      r := RegisterInner(msg.jobId, t.value);
    }

    /** `registerJobResults`: resolves the role, refuses a push with more
      * jobs than the bulk push limit before counting anything, then counts
      * the jobs in the push's (unspecified) iteration order `order`,
      * stopping at the first refusal; the results counted before it stay. */
    method RegisterJobResults(msg: BulkPush) returns (r: Result<()>, ghost order: seq<int>)
      requires Valid()
      modifies this`jobInfo, this`jobMetas
      ensures Valid()
      ensures SuitableJobType(msg.roleKey).Err? ==> r == Err(UnknownKey) && State() == old(State())
      ensures SuitableJobType(msg.roleKey).Ok? && |msg.GetJobs()| > bulkPushLimit ==>
                r == Err(BulkPushLimit(bulkPushLimit)) && State() == old(State())
      ensures SuitableJobType(msg.roleKey).Ok? && |msg.GetJobs()| <= bulkPushLimit ==>
        var reg := RegisterAll(old(State()), order, SuitableJobType(msg.roleKey).value);
        Distinct(order) && (forall id :: id in order ==> id in msg.results) &&
        State() == reg.books &&
        (r.Ok? <==> reg.failure.None?) &&
        (r.Err? ==> reg.failure == Some(r.error)) &&
        (r.Ok? ==> forall id :: id in msg.results ==> id in order)
    {
      order := [];
      var role := SuitableJobType(msg.roleKey);
      if role.Err? {
        return Err(role.error), order;
      }
      var t := role.value;
      if |msg.GetJobs()| > bulkPushLimit {
        return Err(BulkPushLimit(bulkPushLimit)), order;
      }
      var rest := msg.GetJobs();
      while rest != {}
        invariant Valid()
        invariant rest <= msg.results.Keys
        invariant Distinct(order)
        invariant forall id :: id in order ==> id in msg.results && id !in rest
        invariant forall id :: id in msg.results ==> id in rest || id in order
        invariant RegisterAll(old(State()), order, t).failure.None?
        invariant State() == RegisterAll(old(State()), order, t).books
        decreases rest
      {
        HasElement(rest);
        var id :| id in rest;
        var step := RegisterInner(id, t);
        ghost var prev := order;
        order := order + [id];
        assert order[..|order| - 1] == prev;
        if step.Err? {
          return step, order;
        }
        rest := rest - {id};
      }
      return Ok(()), order;
    }

    /** `validateInspection`: only a COLLECT role may inspect, only on behalf
      * of a pending parent job, and only results of that job's prerequisites. */
    function ValidateInspection(req: InspectResult): (r: Result<()>)
      reads this
      ensures r.Ok? <==> SuitableJobType(req.roleKey) == Ok(COLLECT) && req.parentJobId in jobInfo &&
                         req.forJobId in jobInfo[req.parentJobId].prerequisites
      ensures SuitableJobType(req.roleKey).Err? ==> r == Err(UnknownKey)
      ensures SuitableJobType(req.roleKey).Ok? && SuitableJobType(req.roleKey).value != COLLECT ==> r == Err(IllSuited)
      ensures SuitableJobType(req.roleKey) == Ok(COLLECT) && req.parentJobId !in jobInfo ==>
                r == Err(NoPendingCollectJob(req.parentJobId))
      ensures SuitableJobType(req.roleKey) == Ok(COLLECT) && req.parentJobId in jobInfo &&
                req.forJobId !in jobInfo[req.parentJobId].prerequisites ==>
                r == Err(CannotInspect(req.forJobId))
    {
      match SuitableJobType(req.roleKey)
      case Err(e) => Err(e)
      case Ok(t) =>
        if t != COLLECT then Err(IllSuited)
        else if req.parentJobId !in jobInfo then Err(NoPendingCollectJob(req.parentJobId))
        else if req.forJobId !in jobInfo[req.parentJobId].prerequisites then Err(CannotInspect(req.forJobId))
        else Ok(())
    }

    /** The range part of a bulk input request: ids `start` to `end - 1`,
      * one fetch each. */
    method ServeRange(start: int, end: int, t: JobType) returns (acc: BulkInputs)
      requires Tracked(State())
      ensures acc == Gather(State(), forceRedundance, Range(start, end), t)
    {
      acc := BulkInputs(map[], 0);
      var i := start;
      while i < end
        invariant i == start || start < i <= end
        invariant acc == Gather(State(), forceRedundance, Range(start, i), t)
        decreases end - i
      {
        assert Range(start, i + 1) == Range(start, i) + [i];
        acc := ServeOne(Range(start, i), acc, i, t);
        i := i + 1;
      }
      if start < end {
        assert i == end;
      }
    }

    /** One id of a bulk input request, after the ids `served`: its input is
      * added when the job can be fetched, otherwise one more failure is
      * counted. */
    method ServeOne(ghost served: seq<int>, acc0: BulkInputs, id: int, t: JobType) returns (acc: BulkInputs)
      requires Tracked(State())
      requires acc0 == Gather(State(), forceRedundance, served, t)
      ensures acc == Gather(State(), forceRedundance, served + [id], t)
    {
      var pair := FetchInner(id, t);
      GatherStep(State(), forceRedundance, served, id, t, pair.Ok?, if pair.Ok? then pair.value.1 else Null);
      if pair.Ok? {
        acc := acc0.(inputs := acc0.inputs[id := pair.value.1]);
      } else {
        acc := acc0.(fetchFails := acc0.fetchFails + 1);
      }
    }

    /** The additional ids of a bulk input request, served after `served`. */
    method ServeMore(served: seq<int>, acc0: BulkInputs, extra: seq<int>, t: JobType) returns (acc: BulkInputs)
      requires Tracked(State())
      requires acc0 == Gather(State(), forceRedundance, served, t)
      ensures acc == Gather(State(), forceRedundance, served + extra, t)
    {
      acc := acc0;
      var k := 0;
      assert served + extra[..0] == served;
      while k < |extra|
        invariant 0 <= k <= |extra|
        invariant acc == Gather(State(), forceRedundance, served + extra[..k], t)
      {
        assert served + extra[..k + 1] == (served + extra[..k]) + [extra[k]];
        acc := ServeOne(served + extra[..k], acc, extra[k], t);
        k := k + 1;
      }
      assert extra[..k] == extra;
    }

    /** `getJobInputs`: refuses a request over the bulk limit (by the size
      * rule, before the role is even resolved), then serves the id range
      * and the additional ids one by one, counting each id it cannot serve. */
    method GetJobInputs(req: InputRequest) returns (r: Result<BulkInputs>)
      requires Tracked(State()) && req.SizeDefined()
      ensures req.GetSize() > bulkLimit ==> r == Err(BulkInputLimit(bulkLimit))
      ensures req.GetSize() <= bulkLimit && SuitableJobType(req.roleKey).Err? ==> r == Err(UnknownKey)
      ensures req.GetSize() <= bulkLimit && SuitableJobType(req.roleKey).Ok? && req.additional.None? ==>
                r == Err(NullPointer)
      ensures req.GetSize() <= bulkLimit && SuitableJobType(req.roleKey).Ok? && req.additional.Some? ==>
                r == Ok(Gather(State(), forceRedundance, Range(req.start, req.end) + req.additional.value,
                               SuitableJobType(req.roleKey).value))
    {
      if req.GetSize() > bulkLimit {
        return Err(BulkInputLimit(bulkLimit));
      }
      var role := SuitableJobType(req.roleKey);
      if role.Err? {
        return Err(role.error);
      }
      var acc := ServeRange(req.start, req.end, role.value);
      if req.additional.None? {
        return Err(NullPointer);
      }
      acc := ServeMore(Range(req.start, req.end), acc, req.additional.value, role.value);
      return Ok(acc);
    }
  }
}
