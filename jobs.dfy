// Job descriptions: the three job kinds, the per-job counters the manager
// keeps, and the immutable description of one unit of work.

module Jobs {
  import opened Common

  /** SLOG jobs do raw work, COLLECT jobs reduce results of other jobs,
    * AUDIT roles may inspect everything. */
  datatype JobType = SLOG | COLLECT | AUDIT

  /** Per-job counters; they outlive the job's catalog entry. */
  datatype JobMetadata = JobMetadata(inspectCount: int, completionCount: int)

  /** The counters a freshly registered job starts with. */
  const FreshMetadata: JobMetadata := JobMetadata(0, 0)

  /** One unit of work.  `link` is the optional link a job builder attaches;
    * `None` is Java's null / an empty Optional. */
  datatype JobInfo = JobInfo(
    jobType: JobType,
    priority: int,
    jobData: Obj,
    programId: int,
    properties: map<string, string>,
    redundancyCount: Int32,
    prerequisites: set<int>,
    link: Option<string>)

  /** The fields a client is allowed to see: a masked clone keeps exactly these. */
  predicate SamePublicFields(a: JobInfo, b: JobInfo) {
    a.jobType == b.jobType && a.priority == b.priority &&
    a.properties == b.properties && a.prerequisites == b.prerequisites
  }

  /** The copy of a job handed out in listings: payload, program, redundancy
    * target and link are blanked, everything a client may see is kept. */
  function MaskedClone(j: JobInfo): (r: JobInfo)
    ensures r.jobData == Null && r.programId == -1 && r.redundancyCount == 0 && r.link == None
    ensures SamePublicFields(r, j)
  {
    JobInfo(j.jobType, j.priority, Null, -1, j.properties, 0, j.prerequisites, None)
  }

  /** Masking twice is masking once. */
  lemma MaskedCloneIdempotent(j: JobInfo)
    ensures MaskedClone(MaskedClone(j)) == MaskedClone(j)
  {
  }

  /** A masked clone depends on the public fields only: two jobs that differ
    * in payload, program, redundancy or link cannot be told apart. */
  lemma MaskedCloneHidesPrivateFields(a: JobInfo, b: JobInfo)
    ensures MaskedClone(a) == MaskedClone(b) <==> SamePublicFields(a, b)
  {
  }

  /** `Comparable.compareTo`: the order of priorities as -1, 0 or 1. */
  function CompareTo(a: JobInfo, b: JobInfo): (r: int)
    ensures r == -1 || r == 0 || r == 1
    ensures r < 0 <==> a.priority < b.priority
    ensures r == 0 <==> a.priority == b.priority
    ensures r > 0 <==> a.priority > b.priority
  {
    if a.priority < b.priority then -1
    else if a.priority > b.priority then 1
    else 0
  }

  /** The Comparable contract: the comparison is antisymmetric and transitive,
    * and masking does not change where a job sorts. */
  lemma CompareToIsTotalOrder(a: JobInfo, b: JobInfo, c: JobInfo)
    ensures CompareTo(a, b) == -CompareTo(b, a)
    ensures CompareTo(a, b) <= 0 && CompareTo(b, c) <= 0 ==> CompareTo(a, c) <= 0
    ensures CompareTo(MaskedClone(a), MaskedClone(b)) == CompareTo(a, b)
  {
  }
}
