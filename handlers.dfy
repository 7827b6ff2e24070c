// What the servlet does with each client message: the `handle` method of
// every message kind, over the job manager and the result store.  What the
// channel and the concrete store do is given as parameters: whether a send
// succeeds, whether a write succeeds, what a read returns.

module Handlers {
  import opened Common
  import opened Jobs
  import opened Messages
  import opened Catalog
  import opened JobManagers
  import opened Storage

  /** Registration of one result under the role a key resolved to. */
  function RegisterAs(b: Books, role: Result<JobType>, id: int): (r: Result<Books>)
    ensures role.Err? ==> r == Err(role.error)
    ensures role.Ok? ==> r == RegisterOne(b, id, role.value)
  {
    if role.Err? then Err(role.error) else RegisterOne(b, id, role.value)
  }

  /** `PushResult.handle`: the result is counted first and stored only once
    * counted; a failed write leaves it counted but not stored. */
  method HandlePushResult(msg: PushResult, m: JobManager, store: ObjectStore, ioOk: bool) returns (r: Result<()>)
    requires m.Valid()
    modifies m`jobInfo, m`jobMetas, store`results, store`puts
    ensures m.Valid()
    ensures var reg := RegisterAs(old(m.State()), m.SuitableJobType(msg.roleKey), msg.jobId);
      (reg.Err? ==> r == Err(reg.error) && m.State() == old(m.State()) &&
                    store.puts == old(store.puts) && store.results == old(store.results)) &&
      (reg.Ok? ==> m.State() == reg.value) &&
      (reg.Ok? && ioOk ==> r == Ok(()) &&
                           store.puts == old(store.puts) + [msg] && store.results == Append(old(store.results), msg)) &&
      (reg.Ok? && !ioOk ==> r == Err(Wrapped("Failed to store result object")) &&
                            store.puts == old(store.puts) && store.results == old(store.results))
  {
    var reg := m.RegisterJobResult(msg);
    if reg.Err? {
      return reg;
    }
    var put := store.PutResult(msg, ioOk);
    if put.Err? {
      return Err(Wrapped("Failed to store result object"));
    }
    return Ok(());
  }

  /** `BulkPush.handle`: nothing is stored unless every result of the push
    * was counted; then every entry is written once, in some order, up to
    * the first failing write. */
  method HandleBulkPush(msg: BulkPush, m: JobManager, store: ObjectStore, failing: set<int>)
    returns (r: Result<()>, ghost counted: seq<int>, ghost written: seq<int>)
    requires m.Valid()
    modifies m`jobInfo, m`jobMetas, store`results, store`puts
    ensures m.Valid()
    ensures m.SuitableJobType(msg.roleKey).Err? ==> r == Err(UnknownKey) && m.State() == old(m.State())
    ensures m.SuitableJobType(msg.roleKey).Ok? && |msg.GetJobs()| > m.bulkPushLimit ==>
              r == Err(BulkPushLimit(m.bulkPushLimit)) && m.State() == old(m.State())
    ensures m.SuitableJobType(msg.roleKey).Ok? && |msg.GetJobs()| <= m.bulkPushLimit ==>
              m.State() == RegisterAll(old(m.State()), counted, m.SuitableJobType(msg.roleKey).value).books
    ensures m.SuitableJobType(msg.roleKey).Ok? && |msg.GetJobs()| <= m.bulkPushLimit ==>
              Distinct(counted) && forall id :: id in counted ==> id in msg.results
    ensures store.puts != old(store.puts) || store.results != old(store.results) ==>
              m.SuitableJobType(msg.roleKey).Ok? && |msg.GetJobs()| <= m.bulkPushLimit &&
              RegisterAll(old(m.State()), counted, m.SuitableJobType(msg.roleKey).value).failure.None? &&
              forall id :: id in msg.results ==> id in counted
    ensures forall i :: 0 <= i < |written| ==> written[i] in msg.results
    ensures Distinct(written)
    ensures written == [] ==> store.puts == old(store.puts) && store.results == old(store.results)
    ensures r.Err? && written != [] ==>
              store.puts == old(store.puts) + Puts(msg, written[..|written| - 1]) &&
              store.results == AppendAll(old(store.results), Puts(msg, written[..|written| - 1]))
    ensures r.Ok? <==> m.SuitableJobType(msg.roleKey).Ok? && |msg.GetJobs()| <= m.bulkPushLimit &&
                       RegisterAll(old(m.State()), counted, m.SuitableJobType(msg.roleKey).value).failure.None? &&
                       forall id :: id in msg.results ==> id !in failing
    ensures r.Err? && m.SuitableJobType(msg.roleKey).Ok? && |msg.GetJobs()| <= m.bulkPushLimit &&
            RegisterAll(old(m.State()), counted, m.SuitableJobType(msg.roleKey).value).failure.None? ==>
              r == Err(Wrapped("Failed to store bulk results"))
    ensures r.Ok? ==> Distinct(written) && (forall id :: id in msg.results ==> id in written) &&
                      store.puts == old(store.puts) + Puts(msg, written) &&
                      store.results == AppendAll(old(store.results), Puts(msg, written))
  {
    written := [];
    var reg;
    reg, counted := m.RegisterJobResults(msg);
    if reg.Err? {
      return reg, counted, written;
    }
    var put;
    put, written := store.PutResultsBulk(msg, failing);
    if put.Err? {
      return Err(Wrapped("Failed to store bulk results")), counted, written;
    }
    return Ok(()), counted, written;
  }

  /** `InputRequest.handle`: the manager's answer is sent as it is, failures
    * included; `sent` is what was handed to the channel. */
  method HandleInputRequest(msg: InputRequest, m: JobManager, sendOk: bool) returns (r: Result<()>, sent: Option<Outgoing>)
    requires Tracked(m.State()) && msg.SizeDefined()
    ensures sent.Some? ==> msg.GetSize() <= m.bulkLimit && m.SuitableJobType(msg.roleKey).Ok? &&
                           msg.additional.Some? &&
                           sent.value == SendInputs(Gather(m.State(), m.forceRedundance,
                                                           Range(msg.start, msg.end) + msg.additional.value,
                                                           m.SuitableJobType(msg.roleKey).value))
    ensures msg.GetSize() > m.bulkLimit ==> r == Err(BulkInputLimit(m.bulkLimit))
    ensures msg.GetSize() <= m.bulkLimit && m.SuitableJobType(msg.roleKey).Err? ==> r == Err(UnknownKey)
    ensures msg.GetSize() <= m.bulkLimit && m.SuitableJobType(msg.roleKey).Ok? && msg.additional.None? ==>
              r == Err(NullPointer)
    ensures r.Ok? <==> sent.Some? && sendOk
    ensures sent.Some? && !sendOk ==> r == Err(Wrapped("Failed to send program inputs"))
    ensures msg.GetSize() <= m.bulkLimit && m.SuitableJobType(msg.roleKey).Ok? && msg.additional.Some? ==> sent.Some?
  {
    var inputs := m.GetJobInputs(msg);
    if inputs.Err? {
      return Err(inputs.error), None;
    }
    sent := Some(SendInputs(inputs.value));
    if !sendOk {
      return Err(Wrapped("Failed to send program inputs")), sent;
    }
    return Ok(()), sent;
  }

  /** `InspectResult.handle`: stored results reach only a collector
    * inspecting a prerequisite of a pending collect job; `stored` is what the
    * store's read returns (`None` inside is a null array). */
  method HandleInspectResult(msg: InspectResult, m: JobManager, stored: Result<Option<seq<Obj>>>, sendOk: bool)
    returns (r: Result<()>, sent: Option<Outgoing>)
    ensures sent.Some? <==> m.ValidateInspection(msg).Ok? && stored.Ok?
    ensures sent.Some? ==> sent.value == SendResults(stored.value)
    ensures m.ValidateInspection(msg).Err? ==> r == Err(m.ValidateInspection(msg).error)
    ensures m.ValidateInspection(msg).Ok? && stored.Err? ==>
              r == Err(Wrapped("Failed to fetch and send results from object storage"))
    ensures sent.Some? ==> (r.Ok? <==> sendOk)
    ensures sent.Some? && !sendOk ==> r == Err(Wrapped("Failed to fetch and send results from object storage"))
  {
    var valid := m.ValidateInspection(msg);
    if valid.Err? {
      return Err(valid.error), None;
    }
    if stored.Err? {
      return Err(Wrapped("Failed to fetch and send results from object storage")), None;
    }
    sent := Some(SendResults(stored.value));
    if !sendOk {
      return Err(Wrapped("Failed to fetch and send results from object storage")), sent;
    }
    return Ok(()), sent;
  }

  /** `InspectBlock.handle`: the block check and the block read it relies on
    * are not part of the manager and store as written; their outcomes are
    * parameters.  A block is sent only after the check passed. */
  method HandleInspectBlock(validation: Result<()>, block: Result<Obj>, sendOk: bool)
    returns (r: Result<()>, sent: Option<Outgoing>)
    ensures sent.Some? <==> validation.Ok? && block.Ok?
    ensures sent.Some? ==> sent.value == SendBlock(block.value)
    ensures validation.Err? ==> r == validation
    ensures r.Ok? <==> sent.Some? && sendOk
    ensures validation.Ok? && r.Err? ==> r == Err(Wrapped("Failed to get block of results"))
  {
    if validation.Err? {
      return validation, None;
    }
    if block.Err? {
      return Err(Wrapped("Failed to get block of results")), None;
    }
    sent := Some(SendBlock(block.value));
    if !sendOk {
      return Err(Wrapped("Failed to get block of results")), sent;
    }
    return Ok(()), sent;
  }
}
