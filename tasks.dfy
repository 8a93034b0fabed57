/** The task entity, its status and type, and the two pure pieces of the task
    service: the translation of the training backend's status words and the
    effect of one status poll on a task. */
module Tasks {
  import opened Common
  import opened Strings

  datatype TaskStatus = Pending | Running | Completed | Failed | Stopped

  datatype TaskType = Training | Inference

  /** A task in one of these states can no longer be stopped. */
  predicate IsTerminal(s: TaskStatus) {
    s == Completed || s == Failed || s == Stopped
  }

  /** A value of the free-form job configuration: the GPU list the service
      inserts, or any other JSON value, kept as its text. */
  datatype ConfigValue = GpuIdList(ids: seq<int>) | Json(text: string)

  type Config = map<string, ConfigValue>

  /** The key under which the requested GPUs are added to the configuration. */
  const GpuIdsKey: string := "gpuIds"

  /** The dataset id a task without a dataset is stored with. */
  const NoDataset: Uuid := "00000000-0000-0000-0000-000000000000"

  /** A row of the `tasks` table. Creation and update timestamps are left
      out. */
  datatype Task = Task(
    id: Uuid,
    name: string,
    taskType: TaskType,
    status: TaskStatus,
    modelId: Uuid,
    datasetId: Uuid,
    config: Option<Config>,
    createdBy: Uuid,
    externalTaskId: Option<string>)

  /** The job kind named in the submission path. */
  function JobKind(t: TaskType): string {
    if t == Training then "train" else "infer"
  }

  /** Adds the requested GPUs to the configuration, creating one when there is
      none; a missing or empty GPU list leaves the configuration as it is. */
  function MergeGpuIds(config: Option<Config>, gpuIds: Option<seq<int>>): (r: Option<Config>)
    ensures gpuIds.None? || gpuIds.value == [] ==> r == config
    ensures gpuIds.Some? && gpuIds.value != [] ==>
      r.Some? && GpuIdsKey in r.value && r.value[GpuIdsKey] == GpuIdList(gpuIds.value) &&
      r.value.Keys == (if config.Some? then config.value.Keys else {}) + {GpuIdsKey} &&
      (forall k :: config.Some? && k in config.value && k != GpuIdsKey ==> r.value[k] == config.value[k])
  {
    if gpuIds.None? || gpuIds.value == [] then config
    else
      var base := if config.Some? then config.value else map[];
      Some(base[GpuIdsKey := GpuIdList(gpuIds.value)])
  }

  /** The backend's words for each local status (compared after lowering the
      case). */
  const PendingWords: set<string> := {"pending"}
  const RunningWords: set<string> := {"running", "in_progress"}
  const CompletedWords: set<string> := {"completed", "success"}
  const FailedWords: set<string> := {"failed", "error"}
  const StoppedWords: set<string> := {"stopped", "cancelled", "canceled"}

  /** `mapBackendStatus`: a missing status and any unknown word mean
      PENDING. */
  function MapBackendStatus(backendStatus: Option<string>): (st: TaskStatus)
    ensures st == Running <==> backendStatus.Some? && ToLower(backendStatus.value) in RunningWords
    ensures st == Completed <==> backendStatus.Some? && ToLower(backendStatus.value) in CompletedWords
    ensures st == Failed <==> backendStatus.Some? && ToLower(backendStatus.value) in FailedWords
    ensures st == Stopped <==> backendStatus.Some? && ToLower(backendStatus.value) in StoppedWords
  {
    match backendStatus
    case None => Pending
    case Some(s) =>
      var w := ToLower(s);
      if w == "pending" then Pending
      else if w == "running" || w == "in_progress" then Running
      else if w == "completed" || w == "success" then Completed
      else if w == "failed" || w == "error" then Failed
      else if w == "stopped" || w == "cancelled" || w == "canceled" then Stopped
      else Pending
  }

  /** The backend's words are matched regardless of case. */
  lemma MapBackendStatusIgnoresCase(s: string, t: string)
    requires ToLower(s) == ToLower(t)
    ensures MapBackendStatus(Some(s)) == MapBackendStatus(Some(t))
  {
  }

  /** Lowering the case of a word before mapping it changes nothing. */
  lemma MapBackendStatusOfLowered(s: string)
    ensures MapBackendStatus(Some(ToLower(s))) == MapBackendStatus(Some(s))
  {
    ToLowerIdempotent(s);
  }

  /** The backend's canonical word for each local status. */
  function BackendWord(st: TaskStatus): (w: string)
    ensures w == ToLower(w)
  {
    match st
    case Pending => "pending"
    case Running => "running"
    case Completed => "completed"
    case Failed => "failed"
    case Stopped => "stopped"
  }

  /** Every local status is reachable from the backend: its canonical word,
      in any casing, maps back to it. */
  lemma MapBackendStatusRoundTrip(st: TaskStatus, s: string)
    requires ToLower(s) == BackendWord(st)
    ensures MapBackendStatus(Some(s)) == st
  {
  }

  /** One status item of the backend's answer; only its status word is
      read. */
  datatype StatusItem = StatusItem(status: Option<string>)

  /** The backend's answer to a status query: a failure, or the body, a map
      from external task id to a (possibly null) status item. */
  datatype PollReply = PollThrew | PollAnswered(body: Option<map<string, Option<StatusItem>>>)

  /** Whether `refreshStatus` queries the backend for this task at all. */
  predicate IsPollable(t: Task) {
    t.externalTaskId.Some? && !IsBlank(t.externalTaskId.value)
  }

  /** The status item `refreshStatus` acts on, or `None` when it returns the
      task untouched: no usable external id, a failed query, an empty or
      missing body, or no item (or a null one) for the task. */
  function PolledItem(t: Task, reply: PollReply): (item: Option<StatusItem>)
    ensures item.Some? ==>
      IsPollable(t) && reply.PollAnswered? && reply.body.Some? &&
      t.externalTaskId.value in reply.body.value &&
      reply.body.value[t.externalTaskId.value] == item
    ensures IsPollable(t) && reply.PollAnswered? && reply.body.Some? && t.externalTaskId.value in reply.body.value ==>
      item == reply.body.value[t.externalTaskId.value]
  {
    if !IsPollable(t) then None
    else
      match reply
      case PollThrew => None
      case PollAnswered(body) =>
        match body
        case None => None
        case Some(items) =>
          if |items| == 0 then None
          else if t.externalTaskId.value in items then items[t.externalTaskId.value]
          else None
  }

  /** `refreshStatus` on values: the task with the status the backend
      reports, or the task itself. Nothing but the status changes. */
  function Refreshed(t: Task, reply: PollReply): (u: Task)
    ensures u.(status := t.status) == t
    ensures PolledItem(t, reply).None? ==> u == t
    ensures PolledItem(t, reply).Some? ==> u.status == MapBackendStatus(PolledItem(t, reply).value.status)
  {
    match PolledItem(t, reply)
    case None => t
    case Some(item) => t.(status := MapBackendStatus(item.status))
  }

  /** Refreshing twice against the same answer is refreshing once. */
  lemma RefreshIdempotent(t: Task, reply: PollReply)
    ensures Refreshed(Refreshed(t, reply), reply) == Refreshed(t, reply)
  {
    assert PolledItem(Refreshed(t, reply), reply) == PolledItem(t, reply);
  }

  /** Nothing protects a finished task: an answer without a status word puts
      a COMPLETED task back to PENDING. */
  lemma RefreshCanReopenFinishedTask(t: Task, ext: string)
    requires t.status == Completed && t.externalTaskId == Some(ext) && !IsBlank(ext)
    ensures Refreshed(t, PollAnswered(Some(map[ext := Some(StatusItem(None))]))).status == Pending
  {
    var reply := PollAnswered(Some(map[ext := Some(StatusItem(None))]));
    assert |reply.body.value| == 1;
    assert PolledItem(t, reply) == Some(StatusItem(None));
  }
}
