// The messages clients and the servlet exchange, as values.  Each client
// message's `handle` is modelled in the Handlers module; here are the
// fields, the checking constructors and the size rule the manager uses.

module Messages {
  import opened Common
  import opened Jobs

  /** A request for a listing of jobs with ids from `minPriority` on. */
  datatype JobRequest = JobRequest(minPriority: int, limit: Int32, roleKey: Key)

  /** A request for the program path and input of one job. */
  datatype JarRequest = JarRequest(jobId: int, roleKey: Key)

  /** A result for one job. */
  datatype PushResult = PushResult(jobId: int, roleKey: Key, resultObject: Obj)

  /** A request for stored results of `forJobId`, on behalf of collect job `parentJobId`. */
  datatype InspectResult = InspectResult(forJobId: int, parentJobId: int, roleKey: Key, limit: Int32)

  /** The size rule shared by bulk input requests and block inspections, in
    * Java `long` arithmetic: the id range contributes `end - start` only when
    * `start > end` (a negative amount), and the additional list contributes
    * its length unless it is null.  A forward range is not counted at all. */
  function RequestSize(start: Int64, end: Int64, additional: Option<seq<int>>): (r: Int64)
    requires additional.Some? ==> |additional.value| <= INT_MAX
    ensures start <= end ==> r == (if additional.Some? then |additional.value| else 0)
    ensures start > end && end - start >= LONG_MIN && additional.None? ==> r == end - start < 0
    ensures start > end && end - start >= LONG_MIN && additional.Some? ==> r == end - start + |additional.value| < |additional.value|
  {
    var ranged: Int64 := if start > end then WrapLong(end - start) else 0;
    if additional.Some? then WrapLong(ranged + |additional.value|) else ranged
  }

  /** The subtraction overflows for a reversed range spanning more than
    * `Long.MAX_VALUE` ids: the widest one then counts as a single id. */
  lemma RequestSizeWrapsOnWidestReversedRange(additional: Option<seq<int>>)
    requires additional.Some? ==> |additional.value| <= INT_MAX
    ensures RequestSize(LONG_MAX, LONG_MIN, additional) == 1 + (if additional.Some? then |additional.value| else 0)
  {
  }

  /** A bulk request for the inputs of jobs `start <= id < end` and of the
    * additional ids.  `additional` is `None` only for a value that was not
    * built by `NewInputRequest`. */
  datatype InputRequest = InputRequest(roleKey: Key, start: Int64, end: Int64, additional: Option<seq<Int64>>)
  {
    predicate SizeDefined() {
      additional.Some? ==> |additional.value| <= INT_MAX
    }

    function GetSize(): (r: Int64)
      requires SizeDefined()
      ensures start <= end ==> r == (if additional.Some? then |additional.value| else 0)
      ensures start > end && end - start >= LONG_MIN ==> r == end - start + (if additional.Some? then |additional.value| else 0)
    {
      RequestSize(start, end, additional)
    }
  }

  /** `new InputRequest(...)`: wrapping a null additional list throws. */
  function NewInputRequest(roleKey: Key, start: Int64, end: Int64, additional: Option<seq<Int64>>): (r: Result<InputRequest>)
    ensures additional.None? <==> r == Err(NullPointer)
    ensures r.Ok? ==> r.value == InputRequest(roleKey, start, end, additional) && r.value.additional.Some?
  {
    if additional.None? then Err(NullPointer) else Ok(InputRequest(roleKey, start, end, additional))
  }

  /** A request for a block of stored results.  The parent job id is never
    * assigned by the constructor, so it keeps Java's default 0. */
  datatype InspectBlock = InspectBlock(parentJobId: Int32, redLimit: Int32, start: Int64, end: Int64,
                                       additional: Option<seq<Int64>>, roleKey: Key)
  {
    predicate SizeDefined() {
      additional.Some? ==> |additional.value| <= INT_MAX
    }

    function GetSize(): (r: Int64)
      requires SizeDefined()
      ensures start <= end ==> r == (if additional.Some? then |additional.value| else 0)
      ensures start > end && end - start >= LONG_MIN ==> r == end - start + (if additional.Some? then |additional.value| else 0)
    {
      RequestSize(start, end, additional)
    }
  }

  /** `new InspectBlock(...)`: a null additional list throws; the parent id is 0. */
  function NewInspectBlock(redLimit: Int32, start: Int64, end: Int64, additional: Option<seq<Int64>>, roleKey: Key): (r: Result<InspectBlock>)
    ensures additional.None? <==> r == Err(NullPointer)
    ensures r.Ok? ==> r.value.parentJobId == 0 && r.value.additional == additional
    ensures r.Ok? ==> r.value.redLimit == redLimit && r.value.start == start && r.value.end == end && r.value.roleKey == roleKey
  {
    if additional.None? then Err(NullPointer) else Ok(InspectBlock(0, redLimit, start, end, additional, roleKey))
  }

  /** Results for many jobs at once, keyed by job id. */
  datatype BulkPush = BulkPush(results: map<int, Obj>, roleKey: Key)
  {
    /** `getJobs()`: the job ids of the push. */
    function GetJobs(): (r: set<int>)
      ensures forall id :: id in r <==> id in results
    {
      results.Keys
    }

    /** `getResults()`: the (job id, result) entries of the push. */
    function GetResults(): (r: set<(int, Obj)>)
      ensures forall id, o :: (id, o) in r <==> id in results && results[id] == o
    {
      set id | id in results :: (id, results[id])
    }
  }

  /** `new BulkPush(results, roleKey)`: a null map is rejected. */
  function NewBulkPush(results: Option<map<int, Obj>>, roleKey: Key): (r: Result<BulkPush>)
    ensures results.None? <==> r == Err(IllegalArgument("Results map cannot be null."))
    ensures r.Ok? ==> r.value.results == results.value && r.value.roleKey == roleKey
  {
    if results.None? then Err(IllegalArgument("Results map cannot be null."))
    else Ok(BulkPush(results.value, roleKey))
  }

  /** A listing of jobs: ids, masked infos, and per-job metadata for auditors
    * (`None` when the listing carries none; a `None` element is a null). */
  datatype Joblisting = Joblisting(ids: seq<int>, infos: seq<JobInfo>, meta: Option<seq<Option<JobMetadata>>>)
  {
    /** Ids and infos pair up one to one, and so do the metadata if present. */
    predicate WellFormed() {
      |ids| == |infos| && (meta.Some? ==> |meta.value| == |ids|)
    }
  }

  /** The inputs of a bulk request and the number of ids that could not be served. */
  datatype BulkInputs = BulkInputs(inputs: map<int, Obj>, fetchFails: int)

  /** The limits the servlet announces to a client. */
  datatype ProtocolConfig = ProtocolConfig(bulkRequestLimit: Int32, bulkPushLimit: Int32)

  /** End of a session; a cause of `None` is a normal end. */
  datatype Termination = Termination(cause: Option<string>)
  {
    predicate IsAbrupt() { cause.Some? }

    /** The cause, or a fixed text for a normal end. */
    function GetCause(): (r: string)
      ensures IsAbrupt() ==> r == cause.value
      ensures !IsAbrupt() ==> r == "servlet closed channel"
    {
      if cause.Some? then cause.value else "servlet closed channel"
    }
  }

  /** `Termination.abrupt(cause)`: abrupt exactly when a cause is given. */
  function Abrupt(cause: Option<string>): (r: Termination)
    ensures r.IsAbrupt() <==> cause.Some?
    ensures cause.Some? ==> r.GetCause() == cause.value
  {
    Termination(cause)
  }

  /** `Termination.normal()`: never abrupt. */
  function Normal(): (r: Termination)
    ensures !r.IsAbrupt() && r.GetCause() == "servlet closed channel"
  {
    Termination(None)
  }

  /** An abrupt termination with a null cause is indistinguishable from a normal one. */
  lemma AbruptWithoutCauseIsNormal()
    ensures Abrupt(None) == Normal()
  {
  }

  /** What a handler hands to `channel.sendObject`. */
  datatype Outgoing =
    | SendInputs(inputs: BulkInputs)
    | SendResults(results: Option<seq<Obj>>)
    | SendBlock(block: Obj)
}
