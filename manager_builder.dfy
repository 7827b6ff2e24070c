// The builder the servlet's job manager is configured with: jobs, program
// archives, role keys, flags and limits, handed over in one step.

module ManagerBuilders {
  import opened Common
  import opened Jobs
  import opened Catalog
  import opened JobManagers

  class JobManagerBuilder {
    var jarMap: map<int, string>
    var jobInfo: map<int, JobInfo>
    var jobMetas: map<int, JobMetadata>
    var keyMap: map<Key, JobType>
    var admitAnySlogger: bool
    var forceRedundance: bool
    var bulkReqLimit: Int32
    var bulkPushLimit: Int32
    /** Recorded but never consulted: the manager has no use for it. */
    var bulkInspLimit: Int32

    /** Every job added so far is scheduled with fresh counters. */
    ghost predicate Valid()
      reads this
    {
      jobInfo.Keys == jobMetas.Keys && forall id :: id in jobMetas ==> jobMetas[id] == FreshMetadata
    }

    /** An empty configuration: no jobs, archives or keys, both flags off,
      * every limit 100. */
    constructor ()
      ensures Valid()
      ensures jarMap == map[] && jobInfo == map[] && jobMetas == map[] && keyMap == map[]
      ensures !admitAnySlogger && !forceRedundance
      ensures bulkReqLimit == 100 && bulkPushLimit == 100 && bulkInspLimit == 100
    {
      jarMap := map[];
      jobInfo := map[];
      jobMetas := map[];
      keyMap := map[];
      admitAnySlogger := false;
      forceRedundance := false;
      bulkReqLimit := 100;
      bulkPushLimit := 100;
      bulkInspLimit := 100;
    }

    method SetBulkReqLimit(limit: Int32)
      modifies this`bulkReqLimit
      ensures bulkReqLimit == limit
    {
      bulkReqLimit := limit;
    }

    method SetBulkInspLimit(limit: Int32)
      modifies this`bulkInspLimit
      ensures bulkInspLimit == limit
    {
      bulkInspLimit := limit;
    }

    method SetBulkPushLimit(limit: Int32)
      modifies this`bulkPushLimit
      ensures bulkPushLimit == limit
    {
      bulkPushLimit := limit;
    }

    /** Schedules a job; an id added again has its job replaced and its
      * counters reset. */
    method AddJob(jobId: int, info: JobInfo)
      requires Valid()
      modifies this`jobInfo, this`jobMetas
      ensures Valid()
      ensures jobInfo == old(jobInfo)[jobId := info]
      ensures jobMetas == old(jobMetas)[jobId := FreshMetadata]
    {
      jobInfo := jobInfo[jobId := info];
      jobMetas := jobMetas[jobId := FreshMetadata];
    }

    method AddJar(programId: int, jarPath: string)
      modifies this`jarMap
      ensures jarMap == old(jarMap)[programId := jarPath]
    {
      jarMap := jarMap[programId := jarPath];
    }

    method WithKey(key: Key, jobType: JobType)
      modifies this`keyMap
      ensures keyMap == old(keyMap)[key := jobType]
    {
      keyMap := keyMap[key := jobType];
    }

    method AllowAnySlogger()
      modifies this`admitAnySlogger
      ensures admitAnySlogger
    {
      admitAnySlogger := true;
    }

    method EnforceRedundance()
      modifies this`forceRedundance
      ensures forceRedundance
    {
      forceRedundance := true;
    }

    /** A manager over exactly the configured jobs, archives and keys, whose
      * bookkeeping invariant holds from the start. */
    method Build() returns (m: JobManager)
      requires Valid()
      ensures fresh(m) && m.Valid()
      ensures m.jarMap == jarMap && m.jobInfo == jobInfo && m.jobMetas == jobMetas && m.keyMap == keyMap
      ensures m.admitAnySlogger == admitAnySlogger && m.forceRedundance == forceRedundance
      ensures m.bulkLimit == bulkReqLimit && m.bulkPushLimit == bulkPushLimit
    {
      m := new JobManager(jarMap, jobInfo, jobMetas, keyMap, admitAnySlogger, forceRedundance,
                          bulkReqLimit, bulkPushLimit);
      FreshBooksSatisfyInv(m.State());
    }
  }
}
