# smolrx in Dafny

smolrx is a small distributed job runner. A servlet holds a catalog of
jobs. Clients connect over an encrypted channel and do the following:

- list the jobs their role key allows;
- fetch the inputs of the jobs they are allowed to run;
- push results back;
- for collect jobs, inspect the stored results of the prerequisite jobs.

Each job carries a redundancy target. A job leaves the catalog once that
many results have been registered for it. Per-job counters outlive the
catalog entry.

This project models the following, and proves what each promises:

- the servlet's catalog authority `JobManager`, with its builders `JobManagerBuilder` and `JobBuilder` and its `JobInfo` records;
- the message handlers that drive it (`PushResult`, `BulkPush`, `InputRequest`, `InspectResult`, `InspectBlock`, `Termination`);
- the abstract result store `ObjectStorage`;
- the batch planning of the client `ParallelClient`;
- the wire framing and handshake of `SecureChannel`;
- the two sample payloads: the Carmichael-number test and the counting reducer.

Layout, one module per file:

| file | module | what it holds |
|---|---|---|
| `common.dfy` | `Common` | `Option`, `Result`, the error kinds, Java `int`/`long` ranges and wrap-around, the `Obj` model of a Java object, small sequence lemmas |
| `jobs.dfy` | `Jobs` | job types, metadata, `JobInfo`, masking and ordering |
| `job_builder.dfy` | `JobBuilders` | the class `JobBuilder` |
| `catalog.dfy` | `Catalog` | the catalog and counters as values: registration, input gathering, listing, and the lemmas about them |
| `job_manager.dfy` | `JobManagers` | the class `JobManager`; its methods are proved against `Catalog` |
| `manager_builder.dfy` | `ManagerBuilders` | the class `JobManagerBuilder` |
| `messages.dfy` | `Messages` | message values, their checking constructors, the size rule, `Termination` |
| `storage.dfy` | `Storage` | the class `ObjectStore`: results appended per job id, and the bulk fan-out |
| `handlers.dfy` | `Handlers` | the `handle` of each client message |
| `client_plan.dfy` | `ClientPlan` | request windows, reply merging, grouping by program, push chunks and the collector fold, as functions with lemmas |
| `parallel_client.dfy` | `ParallelClients` | the class `ParallelClient`; its loops are proved against `ClientPlan` |
| `framing.dfy` | `Framing` | byte layouts of objects, streams and handshake blobs, parsers, round trips |
| `secure_channel.dfy` | `SecureChannels` | the classes `Connection` and `SecureChannel`; reads and writes are proved against `Framing` |
| `carmichael.dfy` | `Carmichael` | gcd, modular exponentiation, primality and the Carmichael test |
| `count_reducer.dfy` | `CountReducer` | the counting reducer and its fold |

Where the code and its description disagree, the model follows the code:

- `getSize` counts the id range only when `start > end`, and then as a
  negative amount. A forward range contributes nothing.
- `listJobs` filters and orders by job id rather than by priority. The
  catalog is keyed by id, so `tailMap(minPriority)` is a tail of ids.

## Model

| member | source | states |
|---|---|---|
| Jobs.MaskedClone | smolrx/app/src/main/java/smolrx/jobs/JobInfo.java:53-65 | the clone blanks the payload, sets the program to -1 and the redundancy target to 0, drops the link, and keeps type, priority, properties and prerequisites |
| Jobs.MaskedCloneIdempotent | smolrx/app/src/main/java/smolrx/jobs/JobInfo.java:53-65 | masking a masked clone changes nothing |
| Jobs.MaskedCloneHidesPrivateFields | smolrx/app/src/main/java/smolrx/jobs/JobInfo.java:56-63 | two jobs have equal masked clones exactly when their public fields agree |
| Jobs.CompareTo | smolrx/app/src/main/java/smolrx/jobs/JobInfo.java:67-75 | the result is -1, 0 or 1, negative, zero or positive exactly as the first priority is below, equal to or above the second |
| Jobs.CompareToIsTotalOrder | smolrx/app/src/main/java/smolrx/jobs/JobInfo.java:68-74 | the comparison is antisymmetric and transitive, and masking does not change it |
| JobBuilders.JobBuilder.constructor | smolrx/app/src/main/java/smolrx/jobs/JobBuilder.java:17-33 | a new builder has no payload, no properties, redundancy 1, no prerequisites and no link |
| JobBuilders.JobBuilder.Create | smolrx/app/src/main/java/smolrx/jobs/JobBuilder.java:23-33 | a negative priority is rejected first and then a program id that is not positive, each with its own message; otherwise the builder holds the defaults |
| JobBuilders.JobBuilder.SetJobData | smolrx/app/src/main/java/smolrx/jobs/JobBuilder.java:35-38 | replaces the payload only |
| JobBuilders.JobBuilder.SetProperty | smolrx/app/src/main/java/smolrx/jobs/JobBuilder.java:40-43 | adds the key or overwrites its earlier value |
| JobBuilders.JobBuilder.AddPrerequisiteJob | smolrx/app/src/main/java/smolrx/jobs/JobBuilder.java:45-48 | set insertion; adding an id already present changes nothing |
| JobBuilders.JobBuilder.SetRedundancyCount | smolrx/app/src/main/java/smolrx/jobs/JobBuilder.java:50-53 | any int is accepted unchecked |
| JobBuilders.JobBuilder.SetLink | smolrx/app/src/main/java/smolrx/jobs/JobBuilder.java:55-58 | a null link clears it |
| JobBuilders.JobBuilder.Build | smolrx/app/src/main/java/smolrx/jobs/JobBuilder.java:60-71 | the job carries every configured field; its priority is non-negative and its program id positive |
| ManagerBuilders.JobManagerBuilder.constructor | smolrx/app/src/main/java/smolrx/jobs/JobManagerBuilder.java:10-18 | empty maps, all three limits 100, both flags off; catalog and metadata keys agree |
| ManagerBuilders.JobManagerBuilder.SetBulkReqLimit | smolrx/app/src/main/java/smolrx/jobs/JobManagerBuilder.java:25-28 | sets only the request limit |
| ManagerBuilders.JobManagerBuilder.SetBulkInspLimit | smolrx/app/src/main/java/smolrx/jobs/JobManagerBuilder.java:35-38 | the Java method spelled `setBulkInspimit`: sets only the inspection limit |
| ManagerBuilders.JobManagerBuilder.SetBulkPushLimit | smolrx/app/src/main/java/smolrx/jobs/JobManagerBuilder.java:45-48 | sets only the push limit |
| ManagerBuilders.JobManagerBuilder.AddJob | smolrx/app/src/main/java/smolrx/jobs/JobManagerBuilder.java:56-60 | maps the id to the job and to fresh zero counters, replacing earlier entries, and keeps catalog keys equal to metadata keys |
| ManagerBuilders.JobManagerBuilder.AddJar | smolrx/app/src/main/java/smolrx/jobs/JobManagerBuilder.java:68-71 | a map put: a later jar for the same program wins |
| ManagerBuilders.JobManagerBuilder.WithKey | smolrx/app/src/main/java/smolrx/jobs/JobManagerBuilder.java:79-82 | a map put: a later type for the same key wins |
| ManagerBuilders.JobManagerBuilder.AllowAnySlogger | smolrx/app/src/main/java/smolrx/jobs/JobManagerBuilder.java:88-91 | sets the flag to true, idempotently |
| ManagerBuilders.JobManagerBuilder.EnforceRedundance | smolrx/app/src/main/java/smolrx/jobs/JobManagerBuilder.java:97-100 | sets the flag to true, idempotently |
| ManagerBuilders.JobManagerBuilder.Build | smolrx/app/src/main/java/smolrx/jobs/JobManagerBuilder.java:106-118 | a fresh manager that satisfies the catalog invariant and receives the maps, both flags, the request limit as its bulk limit and the push limit |
| Catalog.FreshBooksSatisfyInv | smolrx/app/src/main/java/smolrx/jobs/JobManagerBuilder.java:56-60 | a catalog whose jobs all have fresh zero counters satisfies the invariant: every listed job has counters and fewer completions than its target |
| Catalog.ReadyMeaning | smolrx/app/src/main/java/smolrx/jobs/JobManager.java:68-74 | the prerequisites pass exactly when each one still in the catalog has a completion and redundance is not forced; absent ones always pass |
| Catalog.RegisterOne | smolrx/app/src/main/java/smolrx/jobs/JobManager.java:177-187 | fails on missing counters, then on a retired job ("Redundant result"), then on a type mismatch; otherwise adds exactly one completion, retires the job exactly when the count reaches its target, and leaves every other job and all metadata keys alone |
| Catalog.RegisterOneKeepsInv | smolrx/app/src/main/java/smolrx/jobs/JobManager.java:183-186 | a registration keeps every catalogued job below its redundancy target |
| Catalog.RegisterAllKeepsInv | smolrx/app/src/main/java/smolrx/jobs/JobManager.java:170-187 | a batch of registrations keeps the invariant, including one that stops at a failure |
| Catalog.RegisterAllMonotone | smolrx/app/src/main/java/smolrx/jobs/JobManager.java:170-187 | a batch, even one stopped by a failure, never adds a job to the catalog, leaves the jobs it keeps unchanged, keeps the metadata keys and never lowers a completion count |
| Catalog.RegisterAllIsBumped | smolrx/app/src/main/java/smolrx/jobs/JobManager.java:170-187 | a batch succeeds exactly when each id is admissible in turn, and then adds one completion to each distinct id |
| Catalog.RangeCounts | smolrx/app/src/main/java/smolrx/jobs/JobManager.java:208-215 | the id range [start, end) is end - start ascending ids, or none when start >= end |
| Catalog.GatherServesFetchableIds | smolrx/app/src/main/java/smolrx/jobs/JobManager.java:203-227 | the inputs are keyed by exactly the fetchable ids, each with its own payload; every other id adds one failure; for distinct ids, inputs plus failures equal the ids asked for |
| Catalog.AscendingMeaning | smolrx/app/src/main/java/smolrx/jobs/JobManager.java:96-97 | the catalog ids in ascending order: each id once, strictly increasing |
| Catalog.TailIds | smolrx/app/src/main/java/smolrx/jobs/JobManager.java:96-97 | the tail view holds exactly the catalog ids at or above the lower bound, in increasing order |
| Catalog.OfType | smolrx/app/src/main/java/smolrx/jobs/JobManager.java:116-121 | keeps exactly the ids whose job has the given type, in their original order |
| Catalog.ListingIsLeastEligibleIds | smolrx/app/src/main/java/smolrx/jobs/JobManager.java:95-124 | a listing is at most `limit` ids, each in the catalog, at or above the bound and of the resolved type unless auditing, strictly increasing; an eligible id is left out only when the listing is full of smaller ids |
| JobManagers.JobManager.constructor | smolrx/app/src/main/java/smolrx/jobs/JobManager.java:27-62 | the manager holds exactly the maps, flags and limits it is given |
| JobManagers.JobManager.SuitableJobType | smolrx/app/src/main/java/smolrx/jobs/JobManager.java:82-87 | a mapped key yields its type; an unmapped key yields SLOG only when any slogger is admitted; otherwise the key is unknown |
| JobManagers.JobManager.JarOf | smolrx/app/src/main/java/smolrx/jobs/JobManager.java:144 | the jar path of a program, or null when none is registered |
| JobManagers.JobManager.VerifyPrerequisites | smolrx/app/src/main/java/smolrx/jobs/JobManager.java:68-74 | succeeds exactly when the prerequisites are ready; a failure names a pending prerequisite |
| JobManagers.JobManager.FetchInner | smolrx/app/src/main/java/smolrx/jobs/JobManager.java:137-146 | an unknown id and then a type mismatch are rejected; success exactly when the job is fetchable, returning its jar and payload |
| JobManagers.JobManager.FetchJobInfoPair | smolrx/app/src/main/java/smolrx/jobs/JobManager.java:132-135 | the role is resolved before the fetch; an unknown key fails first |
| JobManagers.JobManager.ListAll | smolrx/app/src/main/java/smolrx/jobs/JobManager.java:104-114 | the audit listing is the first `limit` ids of any type, masked, with one metadata entry per listed id |
| JobManagers.JobManager.ListOfType | smolrx/app/src/main/java/smolrx/jobs/JobManager.java:116-123 | the typed listing is the first `limit` ids of the resolved type, masked |
| JobManagers.JobManager.ListJobs | smolrx/app/src/main/java/smolrx/jobs/JobManager.java:95-124 | an unknown key fails; otherwise the listing is well formed, chosen as above, and the catalog is untouched |
| JobManagers.JobManager.RegisterInner | smolrx/app/src/main/java/smolrx/jobs/JobManager.java:177-187 | the manager's maps become those of `Catalog.RegisterOne`, or stay unchanged on its error, and the invariant is kept |
| JobManagers.JobManager.RegisterJobResult | smolrx/app/src/main/java/smolrx/jobs/JobManager.java:153-158 | an unknown key fails with nothing changed; otherwise one registration under the resolved type |
| JobManagers.JobManager.RegisterJobResults | smolrx/app/src/main/java/smolrx/jobs/JobManager.java:165-175 | the role is resolved first; a batch over the push limit fails with nothing changed; otherwise the ids are registered one by one in some order, stopping at the first failure without rolling back |
| JobManagers.JobManager.ValidateInspection | smolrx/app/src/main/java/smolrx/jobs/JobManager.java:189-197 | succeeds exactly when the role is COLLECT, the parent is in the catalog and the inspected id is among its prerequisites; in that order the failures are an unknown key, an ill-suited role, no pending parent, and an id the parent may not inspect |
| JobManagers.JobManager.ServeRange | smolrx/app/src/main/java/smolrx/jobs/JobManager.java:207-215 | the loop over [start, end) gathers what `Catalog.Gather` gathers over that range |
| JobManagers.JobManager.ServeOne | smolrx/app/src/main/java/smolrx/jobs/JobManager.java:209-214 | one id either adds its payload or one failure |
| JobManagers.JobManager.ServeMore | smolrx/app/src/main/java/smolrx/jobs/JobManager.java:217-225 | the additional ids continue the same gathering |
| JobManagers.JobManager.GetJobInputs | smolrx/app/src/main/java/smolrx/jobs/JobManager.java:199-228 | the size is checked before the role; a null list fails; otherwise the result gathers the range and then the additional ids, and no state changes |
| Messages.RequestSize | smolrx/app/src/main/java/smolrx/msg/InputRequest.java:82-91 | for a forward range the size is the number of additional ids, or 0 for a null list; a reversed range subtracts its width |
| Messages.RequestSizeWrapsOnWidestReversedRange | smolrx/app/src/main/java/smolrx/msg/InputRequest.java:84-86 | the widest reversed range overflows the long subtraction and counts as one id |
| Messages.InputRequest.GetSize | smolrx/app/src/main/java/smolrx/msg/InputRequest.java:82-91 | a forward range counts only the additional ids (0 for a null list); a reversed range adds its negative width end - start |
| Messages.NewInputRequest | smolrx/app/src/main/java/smolrx/msg/InputRequest.java:53-58 | the fields are stored unchanged; a null additional list throws |
| Messages.InspectBlock.GetSize | smolrx/app/src/main/java/smolrx/msg/InspectBlock.java:94-103 | the same rule for a block inspection: a forward range counts only the additional ids (0 for a null list); a reversed range adds its negative width |
| Messages.NewInspectBlock | smolrx/app/src/main/java/smolrx/msg/InspectBlock.java:62-68 | the fields are stored and the parent id stays 0; a null additional list throws |
| Messages.BulkPush.GetJobs | smolrx/app/src/main/java/smolrx/msg/BulkPush.java:41-43 | exactly the key set of the results |
| Messages.BulkPush.GetResults | smolrx/app/src/main/java/smolrx/msg/BulkPush.java:37-39 | exactly the entry set of the results |
| Messages.NewBulkPush | smolrx/app/src/main/java/smolrx/msg/BulkPush.java:29-35 | a null map is rejected with its message; otherwise the map and key are stored |
| Messages.Termination.GetCause | smolrx/app/src/main/java/smolrx/msg/Termination.java:29-31 | the stored cause, or "servlet closed channel" for a normal end |
| Messages.Abrupt | smolrx/app/src/main/java/smolrx/msg/Termination.java:13-17 | abrupt exactly when a cause is given, and that cause is reported |
| Messages.Normal | smolrx/app/src/main/java/smolrx/msg/Termination.java:19-23 | never abrupt |
| Messages.AbruptWithoutCauseIsNormal | smolrx/app/src/main/java/smolrx/msg/Termination.java:13-31 | an abrupt end with a null cause equals a normal end |
| Storage.AppendStoresOneResult | smolrx/app/src/main/java/smolrx/storage/ObjectStorage.java:23-29 | one put appends the result to its job's list and leaves every other job's list alone |
| Storage.PutsCarryEntries | smolrx/app/src/main/java/smolrx/storage/ObjectStorage.java:39-41 | each generated put carries its entry's id and result and the push's role key |
| Storage.BulkPutAppendsEachEntryOnce | smolrx/app/src/main/java/smolrx/storage/ObjectStorage.java:37-43 | storing a whole bulk push appends each entry's result to its own job exactly once, and nothing to other jobs |
| Storage.ObjectStore.PutResult | smolrx/app/src/main/java/smolrx/storage/ObjectStorage.java:23-29 | on success, appends the result and records one put; on an I/O failure nothing changes |
| Storage.ObjectStore.PutResultsBulk | smolrx/app/src/main/java/smolrx/storage/ObjectStorage.java:37-43 | one put per entry in some order of distinct ids; succeeds exactly when no entry fails; a failure stops the loop and the puts before it stay; an empty push does nothing |
| Handlers.HandlePushResult | smolrx/app/src/main/java/smolrx/msg/PushResult.java:57-66 | registers before storing; a failed registration leaves storage untouched; on success exactly one put of this message; a storage failure is wrapped |
| Handlers.HandleBulkPush | smolrx/app/src/main/java/smolrx/msg/BulkPush.java:50-58 | a rejected batch stores nothing; the counted ids are distinct and all in the push; an accepted batch stores each entry once; a storage failure becomes "Failed to store bulk results" and keeps every entry written before the failing one, with the other jobs' results untouched |
| Handlers.HandleInputRequest | smolrx/app/src/main/java/smolrx/msg/InputRequest.java:61-72 | sends exactly the inputs the manager gathered and nothing when the manager refuses; the manager's refusals (size limit, unknown key, null additional list) reach the caller unchanged; a send failure is wrapped |
| Handlers.HandleInspectResult | smolrx/app/src/main/java/smolrx/msg/InspectResult.java:61-69 | validates before reading storage; sends exactly what storage returned; storage and send failures are wrapped |
| Handlers.HandleInspectBlock | smolrx/app/src/main/java/smolrx/msg/InspectBlock.java:106-114 | validates before reading the block; sends exactly the block; later failures are wrapped |
| ClientPlan.SpanCheckMeaning | smolrx/app/src/main/java/smolrx/ParallelClient.java:131-133 | the batch is refused exactly when the id span exceeds the push limit |
| ClientPlan.InputWindowsPlan | smolrx/app/src/main/java/smolrx/ParallelClient.java:175-191 | windows start at min, min+L, … below max, each ends at min(max+1, start+L+1) and so spans at most L+1 ids; together they cover [min, max] when min < max; no window when min = max |
| ClientPlan.Unpack | smolrx/app/src/main/java/smolrx/ParallelClient.java:181-187 | a reply is its inputs; the servlet's termination or any other message is an error |
| ClientPlan.MergedMeaning | smolrx/app/src/main/java/smolrx/ParallelClient.java:177-188 | merging succeeds exactly when every reply carries inputs; the result then keeps the entries merged so far, and every id in it comes from some reply |
| ClientPlan.GroupedMeaning | smolrx/app/src/main/java/smolrx/ParallelClient.java:196-210 | every listed id in [min, max] is in exactly the group of its program, paired with its input, and nothing else is grouped |
| ClientPlan.MaskedListingFormsOneGroup | smolrx/app/src/main/java/smolrx/ParallelClient.java:205-207 | masked listings all carry program -1, so grouping them yields a single group |
| ClientPlan.ChunksPartitionResults | smolrx/app/src/main/java/smolrx/ParallelClient.java:410-430 | each push holds at most L ids, carries its results unchanged, every result in [min, max] is sent exactly once, ids outside never, and empty windows are skipped |
| ClientPlan.FoldKeepsFailure | smolrx/app/src/main/java/smolrx/ParallelClient.java:330-336 | once the reducer fails, the fold reports that failure |
| ParallelClients.ParallelClient.constructor | smolrx/app/src/main/java/smolrx/ParallelClient.java:60-68 | stores the settings and starts from the empty range |
| ParallelClients.ParallelClient.ResetRange | smolrx/app/src/main/java/smolrx/ParallelClient.java:72-73 | the range restarts at Long.MAX_VALUE/Long.MIN_VALUE |
| ParallelClients.ParallelClient.DetermineJobIdRange | smolrx/app/src/main/java/smolrx/ParallelClient.java:165-170 | the range widens to contain every listed id, only ever widens, and each new bound is a listed id; from the empty range it is exactly the least and greatest ids |
| ParallelClients.ParallelClient.CheckSpan | smolrx/app/src/main/java/smolrx/ParallelClient.java:131-133 | reports the too-wide error exactly when the span exceeds the push limit |
| ParallelClients.ParallelClient.PlannedRequests | smolrx/app/src/main/java/smolrx/ParallelClient.java:175-179 | one request per window, under the client's role key, with no additional ids |
| ParallelClients.ParallelClient.RequestWindows | smolrx/app/src/main/java/smolrx/ParallelClient.java:176-191 | sends the planned requests in order and merges the replies; on a failure the requests sent are a prefix ending at the failing reply |
| ParallelClients.ParallelClient.RequestBulkInputs | smolrx/app/src/main/java/smolrx/ParallelClient.java:172-194 | the inputs are the merge of all replies to the planned windows with 2 failures reported; otherwise the first failing reply's error |
| ParallelClients.ParallelClient.GroupJobsByProgram | smolrx/app/src/main/java/smolrx/ParallelClient.java:196-210 | the loop builds exactly the grouping proved sound and complete above |
| ParallelClients.ParallelClient.CreateJobInfoMap | smolrx/app/src/main/java/smolrx/ParallelClient.java:357-364 | pairs each id with the info at its index; the map's keys are exactly the ids; more ids than infos is an index error |
| ParallelClients.ParallelClient.SendResults | smolrx/app/src/main/java/smolrx/ParallelClient.java:402-431 | nothing is sent for no results; otherwise exactly the chunk pushes over [min, max] |
| ParallelClients.ParallelClient.SendWindows | smolrx/app/src/main/java/smolrx/ParallelClient.java:411-430 | the loop sends the chunks from its start to max in order |
| ParallelClients.ParallelClient.SendWindow | smolrx/app/src/main/java/smolrx/ParallelClient.java:414-427 | one window ends at min(s+L-1, max) and sends its chunk only when it is not empty |
| ParallelClients.ParallelClient.CollectChunk | smolrx/app/src/main/java/smolrx/ParallelClient.java:416-421 | the chunk is exactly the results with ids in the window |
| ParallelClients.ParallelClient.HandleCollectorJob | smolrx/app/src/main/java/smolrx/ParallelClient.java:328-345 | folds the reducer from 0 once per prerequisite over the same result, and pushes the outcome under the job id, or reports the fold's error |
| Framing.IntRoundTrip | smolrx/app/src/main/java/smolrx/SecureChannel.java:100-131 | a big-endian 4-byte int decodes to what was encoded |
| Framing.IntBytesRoundTrip | smolrx/app/src/main/java/smolrx/SecureChannel.java:127-131 | any 4 bytes re-encode to themselves |
| Framing.ShortRoundTrip | smolrx/app/src/main/java/smolrx/SecureChannel.java:174-206 | a big-endian 2-byte length below 2^15 decodes to what was encoded; from 2^15 on it reads back negative |
| Framing.ObjectFrame | smolrx/app/src/main/java/smolrx/SecureChannel.java:100-107 | the frame is the IV, the 4-byte length and the ciphertext |
| Framing.ParseObject | smolrx/app/src/main/java/smolrx/SecureChannel.java:122-136 | short reads of the IV and of the length fail with their messages; a parse splits the input into IV, length, body and rest |
| Framing.Unseal | smolrx/app/src/main/java/smolrx/SecureChannel.java:138-139 | a parse error passes through; a failed tag is an error |
| Framing.ObjectRoundTrip | smolrx/app/src/main/java/smolrx/SecureChannel.java:100-139 | parsing a written frame recovers its IV and ciphertext and the rest; with a sound cipher, the plaintext |
| Framing.ChunkFrame | smolrx/app/src/main/java/smolrx/SecureChannel.java:172-179 | one chunk is the 2-byte length, the IV and the ciphertext |
| Framing.SealedStream | smolrx/app/src/main/java/smolrx/SecureChannel.java:160-185 | the chunks in order, each under its own IV, then the two zero bytes |
| Framing.ParseStream | smolrx/app/src/main/java/smolrx/SecureChannel.java:197-230 | reads chunks until a zero length, writing their plaintexts in arrival order; short reads fail |
| Framing.StreamRoundTrip | smolrx/app/src/main/java/smolrx/SecureChannel.java:160-230 | reading a written stream yields the chunks' concatenation, stops at the terminator and leaves the rest |
| Framing.BlobFrame | smolrx/app/src/main/java/smolrx/SecureChannel.java:250-251 | a handshake blob is its 4-byte length and its bytes |
| Framing.ParseBlob | smolrx/app/src/main/java/smolrx/SecureChannel.java:253-261 | a short length read fails with its message; a parse splits off length, blob and rest |
| Framing.BlobRoundTrip | smolrx/app/src/main/java/smolrx/SecureChannel.java:250-261 | a written blob reads back unchanged |
| Framing.KeyExchangeAgrees | smolrx/app/src/main/java/smolrx/SecureChannel.java:243-310 | when the servlet's public key reaches the client and the client's reply reaches the servlet, the servlet decrypts the session key the client drew, and an empty key is refused with "Empty key" |
| SecureChannels.Connection.Read | smolrx/app/src/main/java/smolrx/SecureChannel.java:122-125 | a read returns exactly the next n bytes; when fewer remain it fails and consumes what there was |
| SecureChannels.SecureChannel.SendObject | smolrx/app/src/main/java/smolrx/SecureChannel.java:91-109 | appends exactly the object frame of the sealed payload under the given IV |
| SecureChannels.SecureChannel.ReadObject | smolrx/app/src/main/java/smolrx/SecureChannel.java:121-149 | returns what `Unseal` of `ParseObject` of the unread input gives, consuming the frame |
| SecureChannels.SecureChannel.SendStream | smolrx/app/src/main/java/smolrx/SecureChannel.java:160-186 | appends exactly the sealed stream of the chunks under their IVs |
| SecureChannels.SecureChannel.ReadChunk | smolrx/app/src/main/java/smolrx/SecureChannel.java:209-221 | reads one chunk's IV and ciphertext and decrypts it, as `ParseChunk` describes; the unread input is then the rest of the stream |
| SecureChannels.SecureChannel.ReadStream | smolrx/app/src/main/java/smolrx/SecureChannel.java:197-230 | writes and reports exactly what `ParseStream` of the unread input gives |
| SecureChannels.SecureChannel.OpenClientChannel | smolrx/app/src/main/java/smolrx/SecureChannel.java:243-271 | the servlet's side: sends its public key as a blob and takes the session key decrypted from the client's blob; a failed RSA unwrap is `BadPadding`, distinct from the AES/GCM `BadTag`; an empty decrypted key fails with IllegalArgument("Empty key"), as `SecretKeySpec` throws |
| SecureChannels.SecureChannel.OpenServerChannel | smolrx/app/src/main/java/smolrx/SecureChannel.java:285-310 | a client's side: reads the servlet's key blob and sends the session key encrypted under it as a blob; a failure sends nothing |
| SecureChannels.ReadBlob | smolrx/app/src/main/java/smolrx/SecureChannel.java:253-261 | returns what `ParseBlob` of the unread input gives, consuming it |
| Carmichael.JavaRem | tests/bfcarm/Test.java:45 | Java's truncating remainder: smaller than the divisor in magnitude, Dafny's `%` for a non-negative dividend |
| Carmichael.EuclidStep | tests/bfcarm/Test.java:43-47 | a Euclid step keeps the common divisors |
| Carmichael.Gcd | tests/bfcarm/Test.java:42-49 | the result is the greatest common divisor of non-negative arguments |
| Carmichael.ModExpStep | tests/bfcarm/Test.java:54-60 | a square-and-multiply step keeps result·base^exp congruent to the target |
| Carmichael.ModExp | tests/bfcarm/Test.java:51-62 | b^e mod m while the products fit in an int |
| Carmichael.MulRem | tests/bfcarm/Test.java:56-57 | a product of residues, without overflow, for moduli up to 46341 |
| Carmichael.TrialDivision | tests/bfcarm/Test.java:33-40 | having no divisor d with 2 <= d and d*d <= n is primality |
| Carmichael.SquareFits | tests/bfcarm/Test.java:34 | the loop's square does not overflow below 46340² |
| Carmichael.IsPrime | tests/bfcarm/Test.java:30-40 | false below 2; otherwise true exactly when no small divisor exists; false at Integer.MAX_VALUE because the square wraps |
| Carmichael.GcdOneIffCoprime | tests/bfcarm/Test.java:23 | a gcd of 1 means coprime |
| Carmichael.IsCarmichaelNumber | tests/bfcarm/Test.java:17-28 | false below 2 and for primes below 46340²; otherwise true exactly when n is composite and a^n ≡ a (mod n) for every a in [2, n) coprime to n |
| Carmichael.Apply | tests/bfcarm/Test.java:8-15 | rejects a non-Integer with its message; otherwise the Carmichael test as a Boolean, false for primes below 46340² |
| CountReducer.CountApply | tests/bfcarm/Count.java:8-26 | rejects a non-array and then a badly shaped array with their messages; otherwise count+1 when the flag is true and count otherwise, never less than count |
| CountReducer.CountWrapsAtMax | tests/bfcarm/Count.java:21-23 | incrementing Integer.MAX_VALUE wraps to Integer.MIN_VALUE |
| CountReducer.CountFold | tests/bfcarm/Count.java:18-25 | folding the reducer n times from 0 over one flag counts n modulo 2^32 when it is true and 0 otherwise |
| CountReducer.CountFoldExact | tests/bfcarm/Count.java:18-25 | for n up to Integer.MAX_VALUE the fold counts exactly n |
| CountReducer.CountFoldRejectsNonBoolean | tests/bfcarm/Count.java:14-16 | a fold over a non-Boolean result fails with the shape message |

## Left out

- Sockets, threads and virtual threads are left out. Every operation is modelled sequentially.
- The thread pools and completion services of the client are left out.
- `synchronized` blocks are left out, since the model has no concurrency.
- A socket is a `Connection` over a byte sequence. A read returns exactly the requested count or fails at end of input. Partial reads before the end are not modelled.
- Cryptography is abstract:
  - AES/GCM and RSA/OAEP are function values;
  - the round trips hold under a soundness hypothesis (`Framing.Sound`, `Framing.KeyPair`);
  - IVs and session keys from `SecureRandom` are parameters.
- Deflate/Inflate and Java serialisation are left out. `SendStream` takes the deflater's chunks as a parameter. Objects travel as their serialised bytes.
- `close` and `toString` of the channel are left out.
- Logging is left out everywhere.
- `FileStorage` is not part of this model. The store is an abstract map from job id to the results appended for it. Its I/O failures are a parameter: `ioOk`, or the set of failing ids.
- `getResults` of the store is a read whose outcome is a parameter of the inspection handlers.
- `HashMap`/`HashSet` iteration order is arbitrary. The loops over them choose the next element freely and report the order taken as a ghost `order`.
- Integers are unbounded except where the model writes Java's width out:
  - `getSize`'s long subtraction and addition wrap (`Messages.RequestSize`);
  - the client's span check subtracts in long arithmetic (`ClientPlan.SpanTooWide`, `ParallelClients.ParallelClient.CheckSpan`);
  - the counting reducer's `count++` wraps at Integer.MAX_VALUE;
  - the Carmichael payload uses Java's truncating remainder (`Carmichael.JavaRem`), and its int products are bounded explicitly (`Carmichael.MulRem`, `Carmichael.SquareFits`).
- `Catalog.RegisterOne`: `completion_count` is a Java int but is unbounded here. It can wrap only for a job whose redundancy target is 0 or negative: that job never retires and is counted past Integer.MAX_VALUE.
- `Catalog.GatherServesFetchableIds`: `fetchFails` is a Java int but is unbounded here. A forward range has size 0, so it passes the bulk limit however wide it is. With more than Integer.MAX_VALUE failing ids, Java's counter wraps, and the equation inputs + failures = ids does not hold there.
- `Handlers.HandleInspectBlock`: the block validation and block read it calls do not exist in this revision. Their outcomes are parameters, and the model states only the ordering and the wrapping.
- The inspection limit `bulkInspLimit` is stored by the builder but never consulted. `build()` assigns it to `manager.bulkInspLimit` (JobManagerBuilder.java:116), but `JobManager` declares no such field, so this revision does not compile as written. The model drops that one assignment.
- `JobRequest`'s role key is an `Optional` in one file and a `String` in another. The model uses one nullable key.
- `JobInfo`'s constructor is private in this revision, and the class has no `link` field. The model builds the record directly and gives it a `link` field.
- Maps handed from the builders to the manager are copied values. Aliasing between the builder and the built manager is not modelled.
- `JobBuilders.JobBuilder.Build`: Java's `build` hands its own `properties` map and `prerequisiteJobs` set to the job (JobBuilder.java:66-68), so a later `setProperty` or `addPrerequisiteJob` also changes a job built earlier. The model copies both collections into the job, so a built job never changes.
- `ParallelClient` is modelled without I/O:
  - its connection setup is left out, and the protocol configuration is a constructor parameter;
  - the servlet's replies are a function `respond` of the request;
  - pushes and requests are returned as the sequence sent.
- `ParallelClients.ParallelClient.constructor`: Java's null minimum and maximum ids are replaced by the empty range Long.MAX_VALUE/Long.MIN_VALUE, which is what `run` resets them to.
- `ParallelClients.ParallelClient.SendResults` requires a push limit of at least 1 and `maxJobId + bulkPushLimit` within a long. On the excluded inputs the Java loop does not terminate:
  - with a limit of 0 or less, the window never advances;
  - with `maxJobId` near Long.MAX_VALUE, `currentStart + bulkPushLimit - 1` and `currentEnd + 1` overflow, so the window restarts near Long.MIN_VALUE and sends results again.
- `ParallelClients.ParallelClient.RequestBulkInputs` requires a request limit of at least 1 and a range whose window ends fit in a long. With a limit below 1 the Java loop never ends.
- The following client operations are left out because they are socket dialogues with no logic beyond the modelled parts:
  - `requestJobListing`, `determineJobType`, `downloadJarFile`, `downloadProgramJars`, `determineClassName`, `logJarContents` and `signOff`;
  - the per-thread SLOG execution;
  - the inspection loop of the collector path, which calls a configuration getter the protocol configuration lacks.
- Executors and reducers loaded from jars are function values.
- `Carmichael.IsPrime`: the equivalence with trial division is stated only below 46340², and at Integer.MAX_VALUE. In between, `i * i` may wrap.
- `Carmichael.ModExp`: the meaning is stated only for non-negative base and exponent and 1 < mod <= 46341, where products of residues fit in an int.
- `Carmichael.IsCarmichaelNumber`: the full verdict is stated only for n <= 46341, the bound of `ModExp`. That primes give false is stated up to 46340², the bound of `IsPrime`.
- `Carmichael.Apply`: the meaning is stated only for inputs up to 46341, as for `IsCarmichaelNumber`.
- `Carmichael.Gcd`: the meaning is stated only for non-negative arguments.
- `CountReducer.CountApply`: "never less than the input" is stated only below Integer.MAX_VALUE, where the increment does not wrap.
