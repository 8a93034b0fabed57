/** The task service: it creates training and inference tasks, submits them to
    the training backend, keeps their status in step with the backend's, stops
    them, and reports their metrics and logs.

    The backend is an oracle: every request the service sends is appended to
    `sent`, and the answer it got is a parameter of the operation. The audit
    trail the service writes is the sequence `audit`. A transaction that
    raises leaves `tasks` as it was; requests already sent and audit records
    already queued stay. */
module TaskOrchestration {
  import opened Common
  import opened Strings
  import opened Tasks
  import Storage

  /** A request to the training backend. */
  datatype BackendRequest =
    | Submit(jobKind: string, config: Option<Config>)
    | Poll(externalTaskId: string)
    | Cancel(externalTaskId: string)

  /** The backend's answer to a submission: a failure, or the body with its
      nested request echo. */
  datatype SubmitReply = SubmitThrew | SubmitAnswered(body: Option<TrainResponse>)
  datatype TrainResponse = TrainResponse(request: Option<TrainRequest>)
  datatype TrainRequest = TrainRequest(taskId: Option<string>)

  /** The backend's answer to a cancellation: a failure, or an HTTP status. */
  datatype CancelReply = CancelThrew | CancelAnswered(statusCode: int)

  /** The TASK_CREATE and TASK_STOP audit records. */
  datatype AuditRecord =
    | TaskCreated(operator: Uuid, taskId: Uuid, name: string, taskType: TaskType, modelId: Uuid, datasetId: Uuid)
    | TaskSubmitted(operator: Uuid, taskId: Uuid, externalTaskId: string, status: TaskStatus)
    | TaskStopped(operator: Uuid, taskId: Uuid, previousStatus: TaskStatus, externalTaskId: string)

  /** One entry of the metrics report. */
  datatype TaskMetrics = TaskMetrics(taskId: Uuid, timestamp: Time, epoch: int, loss: real, accuracy: real)

  /** The backend's task id in a submission answer, or `None` when the
      submission failed or the answer lacks it. */
  function AcceptedTaskId(reply: SubmitReply): (r: Option<string>)
    ensures r.Some? <==>
      reply.SubmitAnswered? && reply.body.Some? && reply.body.value.request.Some? &&
      reply.body.value.request.value.taskId.Some?
  {
    match reply
    case SubmitThrew => None
    case SubmitAnswered(body) =>
      if body.Some? && body.value.request.Some? then body.value.request.value.taskId else None
  }

  /** Whether stopping must ask the backend to cancel the task first. */
  predicate NeedsCancel(t: Task) {
    t.externalTaskId.Some? && !IsBlank(t.externalTaskId.value)
  }

  /** The cancellation requests a stop sends for `t`. */
  function CancelRequests(t: Task): seq<BackendRequest> {
    if NeedsCancel(t) then [Cancel(t.externalTaskId.value)] else []
  }

  /** Whether a stop of `t` gets past the cancellation step. */
  predicate CancelConfirmed(t: Task, reply: CancelReply) {
    !NeedsCancel(t) || (reply.CancelAnswered? && 200 <= reply.statusCode <= 299)
  }

  /** The answer the backend gives to a status query for `t`. */
  function ReplyFor(t: Task, backend: string -> PollReply): PollReply {
    if t.externalTaskId.Some? then backend(t.externalTaskId.value) else PollThrew
  }

  /** The status queries a refresh of `ts`, in order, sends. */
  function PollRequests(ts: seq<Task>): (r: seq<BackendRequest>)
    ensures |r| <= |ts|
  {
    if ts == [] then []
    else
      var last := ts[|ts| - 1];
      PollRequests(ts[..|ts| - 1]) + (if IsPollable(last) then [Poll(last.externalTaskId.value)] else [])
  }

  /** The table after refreshing the tasks whose ids are in `ids`. */
  function RefreshedTable(tasks: map<Uuid, Task>, ids: set<Uuid>, backend: string -> PollReply): (r: map<Uuid, Task>)
    ensures r.Keys == tasks.Keys
  {
    map id | id in tasks :: if id in ids then Refreshed(tasks[id], ReplyFor(tasks[id], backend)) else tasks[id]
  }

  /** Listing all tasks twice against an unchanged backend gives the table
      the first listing left. */
  lemma {:induction false} RefreshAllIdempotent(tasks: map<Uuid, Task>, backend: string -> PollReply)
    ensures RefreshedTable(RefreshedTable(tasks, tasks.Keys, backend), tasks.Keys, backend)
         == RefreshedTable(tasks, tasks.Keys, backend)
  {
    var once := RefreshedTable(tasks, tasks.Keys, backend);
    forall id | id in tasks
      ensures RefreshedTable(once, tasks.Keys, backend)[id] == once[id]
    {
      var t := tasks[id];
      assert ReplyFor(once[id], backend) == ReplyFor(t, backend);
      RefreshIdempotent(t, ReplyFor(t, backend));
    }
  }

  /** Whether a task passes the optional status and type filters. */
  predicate Matches(t: Task, status: Option<TaskStatus>, taskType: Option<TaskType>) {
    (status.None? || t.status == status.value) && (taskType.None? || t.taskType == taskType.value)
  }

  /** The repository query `getAllTasks` picks for the filters it was given. */
  function FindTasks(tasks: map<Uuid, Task>, status: Option<TaskStatus>, taskType: Option<TaskType>): (found: set<Uuid>)
    ensures found <= tasks.Keys
    ensures forall id :: id in found <==> id in tasks && Matches(tasks[id], status, taskType)
  {
    if status.Some? && taskType.Some? then
      set id | id in tasks && tasks[id].status == status.value && tasks[id].taskType == taskType.value
    else if status.Some? then set id | id in tasks && tasks[id].status == status.value
    else if taskType.Some? then set id | id in tasks && tasks[id].taskType == taskType.value
    else tasks.Keys
  }

  /** With no filter every task is listed, and the query on both filters
      lists the tasks the two single-filter queries have in common. */
  lemma FindTasksFilters(tasks: map<Uuid, Task>, status: Option<TaskStatus>, taskType: Option<TaskType>)
    ensures FindTasks(tasks, None, None) == tasks.Keys
    ensures FindTasks(tasks, status, taskType) == FindTasks(tasks, status, None) * FindTasks(tasks, None, taskType)
  {
    var both := FindTasks(tasks, status, taskType);
    var byStatus := FindTasks(tasks, status, None);
    var byType := FindTasks(tasks, None, taskType);
    forall id | id in both
      ensures id in byStatus && id in byType
    {
    }
    forall id | id in byStatus && id in byType
      ensures id in both
    {
    }
  }

  /** Refreshing one more id: that row is still the original before, and
      saving its refreshed form (only when the backend reported an item, as
      `refreshStatus` does) gives the table with that id refreshed too. */
  lemma RefreshedTableStep(tasks: map<Uuid, Task>, done: set<Uuid>, id: Uuid, backend: string -> PollReply)
    requires id in tasks && id !in done
    ensures RefreshedTable(tasks, done, backend)[id] == tasks[id]
    ensures
      var before := RefreshedTable(tasks, done, backend);
      var reply := ReplyFor(tasks[id], backend);
      var u := Refreshed(tasks[id], reply);
      (if PolledItem(tasks[id], reply).Some? then before[id := u] else before) == RefreshedTable(tasks, done + {id}, backend)
  {
    var before := RefreshedTable(tasks, done, backend);
    var reply := ReplyFor(tasks[id], backend);
    assert RefreshedTable(tasks, done + {id}, backend) == before[id := Refreshed(tasks[id], reply)];
    if PolledItem(tasks[id], reply).None? {
      assert before[id := tasks[id]] == before;
    }
  }

  /** The queries of a longer refresh are those of its prefix, then those of
      its last task. */
  lemma PollRequestsSnoc(ts: seq<Task>, t: Task)
    ensures PollRequests(ts + [t]) == PollRequests(ts) + PollRequests([t])
  {
    assert (ts + [t])[..|ts|] == ts;
    assert [t][..0] == [];
  }

  /** The ids of a list of tasks. */
  function IdsOf(ts: seq<Task>): (ids: seq<Uuid>)
    ensures |ids| == |ts| && forall i :: 0 <= i < |ts| ==> ids[i] == ts[i].id
  {
    seq(|ts|, i requires 0 <= i < |ts| => ts[i].id)
  }

  class TaskService {
    /** The `tasks` table, by id. */
    var tasks: map<Uuid, Task>
    /** The requests sent to the training backend, oldest first. */
    var sent: seq<BackendRequest>
    /** The audit records queued, oldest first. */
    var audit: seq<AuditRecord>
    /** The ids of the models and datasets that exist. */
    const models: set<Uuid>
    const datasets: set<Uuid>

    /** Every row is filed under its own id. */
    predicate Valid()
      reads this
    {
      forall id :: id in tasks ==> tasks[id].id == id
    }

    constructor(models: set<Uuid>, datasets: set<Uuid>)
      ensures Valid()
      ensures tasks == map[] && sent == [] && audit == []
      ensures this.models == models && this.datasets == datasets
    {
      tasks := map[];
      sent := [];
      audit := [];
      this.models := models;
      this.datasets := datasets;
    }

    /** `submitTask`: posts the configuration to the backend; once the backend
        names the job, the task is saved as RUNNING with that id and the
        configuration, and audited. */
    method SubmitTask(task: Task, config: Option<Config>, userId: Uuid, reply: SubmitReply) returns (r: Result<Task>)
      modifies this
      ensures sent == old(sent) + [Submit(JobKind(task.taskType), config)]
      ensures AcceptedTaskId(reply).None? ==>
        r == Err(InternalServerError) && tasks == old(tasks) && audit == old(audit)
      ensures AcceptedTaskId(reply).Some? ==>
        var saved := task.(externalTaskId := AcceptedTaskId(reply), status := Running, config := config);
        r == Ok(saved) && tasks == old(tasks)[task.id := saved] &&
        audit == old(audit) + [TaskSubmitted(userId, task.id, AcceptedTaskId(reply).value, Running)]
      ensures old(Valid()) ==> Valid()
    {
      sent := sent + [Submit(JobKind(task.taskType), config)];
      var accepted := AcceptedTaskId(reply);
      if accepted.None? {
        return Err(InternalServerError);
      }
      var saved := task.(externalTaskId := accepted, status := Running, config := config);
      tasks := tasks[task.id := saved];
      audit := audit + [TaskSubmitted(userId, task.id, accepted.value, Running)];
      r := Ok(saved);
    }

    /** `createTask`: checks the model and the dataset, saves the task as
        PENDING, audits it and submits it. `newId` is the id the database
        generates. A failed submission rolls the new row back. */
    method CreateTask(newId: Uuid, name: string, taskType: TaskType, modelId: Uuid, datasetId: Option<Uuid>,
                      gpuIds: Option<seq<int>>, config: Option<Config>, userId: Uuid, reply: SubmitReply)
      returns (r: Result<Task>)
      requires Valid() && newId !in tasks
      modifies this
      ensures Valid()
      ensures modelId !in models ==>
        r == Err(ModelNotFound) && tasks == old(tasks) && sent == old(sent) && audit == old(audit)
      ensures modelId in models && datasetId.Some? && datasetId.value !in datasets ==>
        r == Err(DatasetNotFound) && tasks == old(tasks) && sent == old(sent) && audit == old(audit)
      ensures modelId in models && (datasetId.None? || datasetId.value in datasets) ==>
        var ds := if datasetId.None? then NoDataset else datasetId.value;
        var merged := MergeGpuIds(config, gpuIds);
        sent == old(sent) + [Submit(JobKind(taskType), merged)] &&
        (AcceptedTaskId(reply).None? ==>
          r == Err(InternalServerError) && tasks == old(tasks) &&
          audit == old(audit) + [TaskCreated(userId, newId, name, taskType, modelId, ds)]) &&
        (AcceptedTaskId(reply).Some? ==>
          var t := Task(newId, name, taskType, Running, modelId, ds, merged, userId, AcceptedTaskId(reply));
          r == Ok(t) && tasks == old(tasks)[newId := t] &&
          audit == old(audit) + [TaskCreated(userId, newId, name, taskType, modelId, ds),
                                 TaskSubmitted(userId, newId, AcceptedTaskId(reply).value, Running)])
    {
      if modelId !in models {
        return Err(ModelNotFound);
      }
      if datasetId.Some? && datasetId.value !in datasets {
        return Err(DatasetNotFound);
      }
      var ds := if datasetId.None? then NoDataset else datasetId.value;
      var merged := MergeGpuIds(config, gpuIds);
      var pending := Task(newId, name, taskType, Pending, modelId, ds, merged, userId, None);
      var before := tasks;
      tasks := tasks[newId := pending];
      audit := audit + [TaskCreated(userId, newId, name, taskType, modelId, ds)];
      r := SubmitTask(pending, merged, userId, reply);
      if r.Err? {
        tasks := before;
      } else {
        assert tasks == before[newId := r.value];
      }
    }

    /** `getTaskById`. */
    function GetTaskById(taskId: Uuid): (r: Result<Task>)
      reads this
      ensures r.Ok? <==> taskId in tasks
      ensures r.Ok? ==> r.value == tasks[taskId]
      ensures r.Err? ==> r.error == TaskNotFound
    {
      if taskId in tasks then Ok(tasks[taskId]) else Err(TaskNotFound)
    }

    /** `refreshStatus`: asks the backend for the task's status and, when it
        reports one, saves the task with the mapped status. */
    method RefreshStatus(t: Task, reply: PollReply) returns (u: Task)
      modifies this
      ensures u == Refreshed(t, reply)
      ensures tasks == if PolledItem(t, reply).Some? then old(tasks)[t.id := u] else old(tasks)
      ensures sent == old(sent) + PollRequests([u])
      ensures audit == old(audit)
      ensures old(Valid()) ==> Valid()
    {
      if !IsPollable(t) {
        return t;
      }
      sent := sent + [Poll(t.externalTaskId.value)];
      var item := PolledItem(t, reply);
      if item.None? {
        return t;
      }
      u := t.(status := MapBackendStatus(item.value.status));
      tasks := tasks[t.id := u];
    }

    /** `getAllTasks`: the tasks that pass the filters, in the order the
        database returns them (any order), each refreshed against the
        backend. `backend` gives the backend's answer for an external id. */
    method GetAllTasks(status: Option<TaskStatus>, taskType: Option<TaskType>, backend: string -> PollReply)
      returns (r: seq<Task>)
      requires Valid()
      modifies this
      ensures Valid()
      ensures forall i, j :: 0 <= i < j < |r| ==> r[i].id != r[j].id
      ensures forall id :: id in IdsOf(r) <==> id in FindTasks(old(tasks), status, taskType)
      ensures forall i :: 0 <= i < |r| ==>
        (r[i].id in old(tasks) && r[i] == Refreshed(old(tasks)[r[i].id], ReplyFor(old(tasks)[r[i].id], backend)))
      ensures tasks == RefreshedTable(old(tasks), FindTasks(old(tasks), status, taskType), backend)
      ensures sent == old(sent) + PollRequests(r)
      ensures audit == old(audit)
    {
      var found := FindTasks(tasks, status, taskType);
      var ids := Enumerate(found);
      r := RefreshEach(ids, found, backend);
      assert IdsOf(r) == ids;
    }

    /** Refreshes the tasks with the given distinct ids, in order; `selected`
        is the set of those ids. */
    method RefreshEach(ids: seq<Uuid>, ghost selected: set<Uuid>, backend: string -> PollReply) returns (r: seq<Task>)
      requires Valid()
      requires forall x :: x in ids <==> x in selected
      requires forall x :: x in ids ==> x in tasks
      requires forall i, j :: 0 <= i < j < |ids| ==> ids[i] != ids[j]
      modifies this
      ensures Valid()
      ensures |r| == |ids|
      ensures forall i :: 0 <= i < |r| ==>
        (r[i].id == ids[i] && r[i] == Refreshed(old(tasks)[ids[i]], ReplyFor(old(tasks)[ids[i]], backend)))
      ensures tasks == RefreshedTable(old(tasks), selected, backend)
      ensures sent == old(sent) + PollRequests(r)
      ensures audit == old(audit)
    {
      r := [];
      ghost var done: set<Uuid> := {};
      var i := 0;
      while i < |ids|
        invariant 0 <= i <= |ids|
        invariant Valid()
        invariant done == set k | 0 <= k < i :: ids[k]
        invariant |r| == i
        invariant forall k :: 0 <= k < i ==>
          (r[k].id == ids[k] && r[k] == Refreshed(old(tasks)[ids[k]], ReplyFor(old(tasks)[ids[k]], backend)))
        invariant tasks == RefreshedTable(old(tasks), done, backend)
        invariant sent == old(sent) + PollRequests(r)
        invariant audit == old(audit)
      {
        var id := ids[i];
        assert id !in done;
        var t := tasks[id];
        RefreshedTableStep(old(tasks), done, id, backend);
        var u := RefreshStatus(t, ReplyFor(t, backend));
        PollRequestsSnoc(r, u);
        r := r + [u];
        done := done + {id};
        i := i + 1;
      }
      assert done == selected by {
        forall x | x in selected ensures x in done {
          var k :| 0 <= k < |ids| && ids[k] == x;
        }
      }
    }

    /** `stopTask`: a PENDING or RUNNING task is cancelled at the backend
        (when it has an external id) and saved as STOPPED. A task without an
        external id fails when its audit record is built. */
    method StopTask(taskId: Uuid, userId: Uuid, reply: CancelReply) returns (r: Result<Task>)
      requires Valid()
      modifies this
      ensures Valid()
      ensures taskId !in old(tasks) ==>
        r == Err(TaskNotFound) && tasks == old(tasks) && sent == old(sent) && audit == old(audit)
      ensures taskId in old(tasks) && IsTerminal(old(tasks)[taskId].status) ==>
        r == Err(TaskCannotStop) && tasks == old(tasks) && sent == old(sent) && audit == old(audit)
      ensures taskId in old(tasks) && !IsTerminal(old(tasks)[taskId].status) ==>
        var t := old(tasks)[taskId];
        sent == old(sent) + CancelRequests(t) &&
        (CancelConfirmed(t, reply) && t.externalTaskId.Some? ==>
          r == Ok(t.(status := Stopped)) && tasks == old(tasks)[taskId := t.(status := Stopped)] &&
          audit == old(audit) + [TaskStopped(userId, taskId, t.status, t.externalTaskId.value)]) &&
        (!CancelConfirmed(t, reply) || t.externalTaskId.None? ==>
          r == Err(InternalServerError) && tasks == old(tasks) && audit == old(audit))
    {
      if taskId !in tasks {
        return Err(TaskNotFound);
      }
      var t := tasks[taskId];
      if IsTerminal(t.status) {
        return Err(TaskCannotStop);
      }
      if NeedsCancel(t) {
        sent := sent + [Cancel(t.externalTaskId.value)];
        if !CancelConfirmed(t, reply) {
          return Err(InternalServerError);
        }
      }
      if t.externalTaskId.None? {
        return Err(InternalServerError);
      }
      var stopped := t.(status := Stopped);
      tasks := tasks[taskId := stopped];
      audit := audit + [TaskStopped(userId, taskId, t.status, t.externalTaskId.value)];
      r := Ok(stopped);
    }

    /** `getTaskMetrics`: a single mock entry, epoch 1 with loss 0.5 and
        accuracy 0.8 for a RUNNING task, all zero otherwise. */
    function GetTaskMetrics(taskId: Uuid, now: Time): (r: Result<seq<TaskMetrics>>)
      reads this
      ensures r.Err? <==> taskId !in tasks
      ensures r.Err? ==> r.error == TaskNotFound
      ensures r.Ok? ==> |r.value| == 1 && r.value[0].taskId == taskId && r.value[0].timestamp == now
      ensures r.Ok? ==> (r.value[0].epoch == 1 <==> tasks[taskId].status == Running)
      ensures r.Ok? && tasks[taskId].status != Running ==>
        r.value[0].epoch == 0 && r.value[0].loss == 0.0 && r.value[0].accuracy == 0.0
    {
      if taskId !in tasks then Err(TaskNotFound)
      else if tasks[taskId].status == Running then Ok([TaskMetrics(taskId, now, 1, 0.5, 0.8)])
      else Ok([TaskMetrics(taskId, now, 0, 0.0, 0.0)])
    }

    /** `getTaskLogs`: the log text of an existing task. */
    function GetTaskLogs(taskId: Uuid, fetch: string -> Option<string>): (r: Result<string>)
      reads this
      ensures r.Err? <==> taskId !in tasks
      ensures r.Err? ==> r.error == TaskNotFound
      ensures r.Ok? ==> r.value == Storage.TaskLogs(taskId, fetch)
    {
      if taskId !in tasks then Err(TaskNotFound) else Ok(Storage.TaskLogs(taskId, fetch))
    }
  }

}
