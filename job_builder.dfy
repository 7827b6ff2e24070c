// The fluent builder jobs are assembled with before they are handed to
// the manager builder.

module JobBuilders {
  import opened Common
  import opened Jobs

  class JobBuilder {
    const priority: int
    const programId: int
    var jobType: JobType
    var jobData: Obj
    var properties: map<string, string>
    var redundancyCount: Int32
    var prerequisiteJobs: set<int>
    var link: Option<string>

    /** The constructor's argument checks hold for the builder's whole life. */
    ghost predicate Valid()
      reads this
    {
      priority >= 0 && programId > 0
    }

    /** The state right after the argument checks passed: no payload, no
      * properties, one accepted result, no prerequisites, no link. */
    constructor (priority: int, programId: int, jobType: JobType)
      requires priority >= 0 && programId > 0
      ensures Valid()
      ensures this.priority == priority && this.programId == programId && this.jobType == jobType
      ensures jobData == Null && properties == map[] && redundancyCount == 1
      ensures prerequisiteJobs == {} && link == None
    {
      this.priority := priority;
      this.programId := programId;
      this.jobType := jobType;
      jobData := Null;
      properties := map[];
      redundancyCount := 1;
      prerequisiteJobs := {};
      link := None;
    }

    /** `new JobBuilder(priority, programId, type)`: rejects a negative priority
      * first, then a program id that is not positive. */
    static method Create(priority: int, programId: int, jobType: JobType) returns (r: Result<JobBuilder>)
      ensures priority < 0 ==> r == Err(IllegalArgument("Priority must be non-negative."))
      ensures priority >= 0 && programId <= 0 ==> r == Err(IllegalArgument("ProgramId must be positive."))
      ensures r.Ok? <==> priority >= 0 && programId > 0
      ensures r.Ok? ==> fresh(r.value) && r.value.Valid()
      ensures r.Ok? ==> r.value.priority == priority && r.value.programId == programId && r.value.jobType == jobType
      ensures r.Ok? ==> r.value.jobData == Null && r.value.properties == map[] && r.value.redundancyCount == 1
      ensures r.Ok? ==> r.value.prerequisiteJobs == {} && r.value.link == None
    {
      if priority < 0 {
        return Err(IllegalArgument("Priority must be non-negative."));
      }
      if programId <= 0 {
        return Err(IllegalArgument("ProgramId must be positive."));
      }
      var b := new JobBuilder(priority, programId, jobType);
      return Ok(b);
    }

    method SetJobData(data: Obj)
      modifies this`jobData
      ensures jobData == data
    {
      jobData := data;
    }

    /** Adds or replaces one property. */
    method SetProperty(key: string, value: string)
      modifies this`properties
      ensures properties == old(properties)[key := value]
    {
      properties := properties[key := value];
    }

    /** Adds a prerequisite; adding the same id again changes nothing. */
    method AddPrerequisiteJob(jobId: int)
      modifies this`prerequisiteJobs
      ensures prerequisiteJobs == old(prerequisiteJobs) + {jobId}
      ensures old(jobId in prerequisiteJobs) ==> prerequisiteJobs == old(prerequisiteJobs)
    {
      prerequisiteJobs := prerequisiteJobs + {jobId};
    }

    method SetRedundancyCount(count: Int32)
      modifies this`redundancyCount
      ensures redundancyCount == count
    {
      redundancyCount := count;
    }

    /** `Optional.ofNullable(link)`: a null link clears it. */
    method SetLink(newLink: Option<string>)
      modifies this`link
      ensures link == newLink
    {
      link := newLink;
    }

    /** The job the builder describes.  Every built job has a non-negative
      * priority and a positive program id, and carries each configured field. */
    function Build(): (r: JobInfo)
      requires Valid()
      reads this
      ensures r.priority >= 0 && r.programId > 0
      ensures r.jobType == jobType && r.priority == priority && r.programId == programId
      ensures r.jobData == jobData && r.properties == properties && r.redundancyCount == redundancyCount
      ensures r.prerequisites == prerequisiteJobs && r.link == link
    {
      JobInfo(jobType, priority, jobData, programId, properties, redundancyCount, prerequisiteJobs, link)
    }
  }
}
