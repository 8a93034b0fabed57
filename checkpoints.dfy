/** The checkpoint catalogue filled from the training backend: the mapping of
    the backend's checkpoint kinds, the naming of a checkpoint after its path,
    the flattening of the backend's nested answer into rows, and the lookup
    by model. */
module Checkpoints {
  import opened Common
  import opened Strings

  datatype CheckpointType = ModelCheckpoint | AdapterCheckpoint

  /** `mapType`: "lora" and "adapter", in any case, are adapters; anything
      else, and a missing kind, is a full model. */
  function MapType(typeKey: Option<string>): (t: CheckpointType)
    ensures t == AdapterCheckpoint <==> typeKey.Some? && ToLower(typeKey.value) in {"lora", "adapter"}
  {
    match typeKey
    case None => ModelCheckpoint
    case Some(k) =>
      var w := ToLower(k);
      if w == "lora" || w == "adapter" then AdapterCheckpoint
      else ModelCheckpoint
  }

  /** Whether `extractName` names the checkpoint after its path: the path is
      not blank and has a '/' before its last character. */
  predicate NamedAfterPath(path: Option<string>) {
    path.Some? && !IsBlank(path.value) && 0 <= LastIndexOf(path.value, '/') < |path.value| - 1
  }

  /** `extractName`: the last segment of the path, else the task id, else
      "checkpoint". */
  function ExtractName(taskId: Option<string>, path: Option<string>): (name: string)
    ensures NamedAfterPath(path) ==>
      |name| > 0 && '/' !in name && |name| < |path.value| &&
      path.value[|path.value| - |name| - 1] == '/' && name == path.value[|path.value| - |name|..]
    ensures !NamedAfterPath(path) && taskId.Some? ==> name == taskId.value
    ensures !NamedAfterPath(path) && taskId.None? ==> name == "checkpoint"
  {
    if NamedAfterPath(path) then
      var p := path.value;
      p[LastIndexOf(p, '/') + 1..]
    else if taskId.Some? then taskId.value
    else "checkpoint"
  }

  /** A path "dir/segment" with a non-empty, slash-free last segment is named
      after that segment. */
  lemma ExtractNameOfJoinedPath(taskId: Option<string>, dir: string, segment: string)
    requires |segment| > 0 && '/' !in segment
    ensures ExtractName(taskId, Some(dir + "/" + segment)) == segment
  {
    var p := dir + "/" + segment;
    LastIndexOfJoined(dir, '/', segment);
    assert p[|dir|] == '/';
    assert p[|dir| + 1..] == segment;
  }

  /** A path whose last segment is blank, such as "a/ ", names its
      checkpoint with that blank segment, which the entity refuses. */
  lemma BlankLastSegmentNotStorable(modelId: Uuid, typeKey: string, taskId: string, dir: string, segment: string,
                                    timeOf: string -> Time)
    requires |segment| > 0 && '/' !in segment && IsBlank(segment)
    ensures !Storable(DraftFor(modelId, Source(typeKey, taskId, Some(dir + "/" + segment)), timeOf))
  {
    ExtractNameOfJoinedPath(Some(taskId), dir, segment);
  }

  /** A path without any '/' yields the task id. */
  lemma ExtractNameWithoutSlash(taskId: string, path: string)
    requires '/' !in path
    ensures ExtractName(Some(taskId), Some(path)) == taskId
  {
  }

  /** The backend's answer: for each checkpoint kind, the tasks and, for each
      task, its checkpoint paths (any of which may be null). */
  datatype TaskPaths = TaskPaths(taskId: string, paths: Option<seq<Option<string>>>)
  datatype TypeGroup = TypeGroup(typeKey: string, tasks: seq<TaskPaths>)
  datatype BackendCheckpoints = BackendCheckpoints(tasks: Option<seq<TypeGroup>>)

  /** A checkpoint before it is saved. */
  datatype Draft = Draft(modelId: Uuid, checkpointType: CheckpointType, path: Option<string>, name: string,
                         taskId: string, createdAt: Time)

  /** The constraints of the `Checkpoint` entity that saving enforces: a
      non-blank path of at most 512 characters and a non-blank name of at
      most 200 (entity/Checkpoint.java:37-39, 52-54). */
  predicate Storable(d: Draft) {
    d.path.Some? && !IsBlank(d.path.value) && |d.path.value| <= 512 && !IsBlank(d.name) && |d.name| <= 200
  }

  predicate AllStorable(ds: seq<Draft>) {
    forall k :: 0 <= k < |ds| ==> Storable(ds[k])
  }

  /** A row of the `checkpoints` table; its id is generated on save. */
  datatype Checkpoint = Checkpoint(id: Uuid, draft: Draft)

  /** `CheckpointResponse`: every field but the task id. */
  datatype CheckpointResponse = CheckpointResponse(id: Uuid, modelId: Uuid, name: string, path: Option<string>,
                                                   createdAt: Time, checkpointType: CheckpointType)

  /** One (kind, task, path) triple of the answer. */
  datatype Source = Source(typeKey: string, taskId: string, path: Option<string>)

  /** The checkpoint drawn from one triple. `timeOf` is the creation time
      read from the task id. */
  function DraftFor(modelId: Uuid, s: Source, timeOf: string -> Time): Draft {
    Draft(modelId, MapType(Some(s.typeKey)), s.path, ExtractName(Some(s.taskId), s.path), s.taskId, timeOf(s.taskId))
  }

  /** The checkpoints drawn from a list of triples, in order. */
  function Drafts(modelId: Uuid, ss: seq<Source>, timeOf: string -> Time): (ds: seq<Draft>)
    ensures |ds| == |ss|
  {
    seq(|ss|, k requires 0 <= k < |ss| => DraftFor(modelId, ss[k], timeOf))
  }

  lemma DraftsAppend(modelId: Uuid, a: seq<Source>, b: seq<Source>, timeOf: string -> Time)
    ensures Drafts(modelId, a + b, timeOf) == Drafts(modelId, a, timeOf) + Drafts(modelId, b, timeOf)
  {
  }

  /** The triples of one task; a null or empty path list gives none. */
  function TaskSources(typeKey: string, t: TaskPaths): (ss: seq<Source>)
    ensures |ss| == PathCount(t)
    ensures forall k :: 0 <= k < |ss| ==> ss[k] == Source(typeKey, t.taskId, t.paths.value[k])
  {
    if t.paths.None? || t.paths.value == [] then []
    else seq(|t.paths.value|, k requires 0 <= k < |t.paths.value| => Source(typeKey, t.taskId, t.paths.value[k]))
  }

  /** The number of paths a task contributes. */
  function PathCount(t: TaskPaths): nat {
    if t.paths.None? then 0 else |t.paths.value|
  }

  /** The triples of the tasks of one kind, task by task. */
  function GroupSources(typeKey: string, tasks: seq<TaskPaths>): seq<Source> {
    if tasks == [] then []
    else GroupSources(typeKey, tasks[..|tasks| - 1]) + TaskSources(typeKey, tasks[|tasks| - 1])
  }

  /** The triples of the whole answer, kind by kind. */
  function Sources(groups: seq<TypeGroup>): seq<Source> {
    if groups == [] then []
    else
      var g := groups[|groups| - 1];
      Sources(groups[..|groups| - 1]) + GroupSources(g.typeKey, g.tasks)
  }

  /** The flattening of `fetchAndStoreBackendCheckpoints`: one checkpoint per
      triple, kind by kind, task by task, path by path. */
  function Flatten(modelId: Uuid, groups: seq<TypeGroup>, timeOf: string -> Time): seq<Draft> {
    Drafts(modelId, Sources(groups), timeOf)
  }

  function GroupPathCount(tasks: seq<TaskPaths>): nat {
    if tasks == [] then 0 else GroupPathCount(tasks[..|tasks| - 1]) + PathCount(tasks[|tasks| - 1])
  }

  /** The total number of paths in the answer. */
  function TotalPathCount(groups: seq<TypeGroup>): nat {
    if groups == [] then 0 else TotalPathCount(groups[..|groups| - 1]) + GroupPathCount(groups[|groups| - 1].tasks)
  }

  /** One checkpoint per path: the flattening is as long as the answer has
      paths. */
  lemma {:induction false} FlattenLength(modelId: Uuid, groups: seq<TypeGroup>, timeOf: string -> Time)
    ensures |Flatten(modelId, groups, timeOf)| == TotalPathCount(groups)
  {
    SourcesLength(groups);
  }

  lemma {:induction false} SourcesLength(groups: seq<TypeGroup>)
    ensures |Sources(groups)| == TotalPathCount(groups)
  {
    if groups != [] {
      SourcesLength(groups[..|groups| - 1]);
      GroupSourcesLength(groups[|groups| - 1].typeKey, groups[|groups| - 1].tasks);
    }
  }

  lemma {:induction false} GroupSourcesLength(typeKey: string, tasks: seq<TaskPaths>)
    ensures |GroupSources(typeKey, tasks)| == GroupPathCount(tasks)
  {
    if tasks != [] {
      GroupSourcesLength(typeKey, tasks[..|tasks| - 1]);
    }
  }

  /** Whether `s` is the `k`-th path of the `j`-th task of a kind. */
  predicate InGroup(typeKey: string, tasks: seq<TaskPaths>, s: Source) {
    exists j, k :: 0 <= j < |tasks| && 0 <= k < PathCount(tasks[j]) &&
      s == Source(typeKey, tasks[j].taskId, tasks[j].paths.value[k])
  }

  /** A kind's tasks with one more task: its paths are added. */
  lemma InGroupSnoc(typeKey: string, tasks: seq<TaskPaths>, s: Source)
    requires tasks != []
    ensures InGroup(typeKey, tasks, s) <==>
      InGroup(typeKey, tasks[..|tasks| - 1], s) || s in TaskSources(typeKey, tasks[|tasks| - 1])
  {
    var n := |tasks| - 1;
    var init, last := tasks[..n], tasks[n];
    var ts := TaskSources(typeKey, last);
    if InGroup(typeKey, tasks, s) {
      var j, k :| 0 <= j < |tasks| && 0 <= k < PathCount(tasks[j]) &&
        s == Source(typeKey, tasks[j].taskId, tasks[j].paths.value[k]);
      if j < n {
        assert init[j] == tasks[j];
        assert 0 <= j < |init| && 0 <= k < PathCount(init[j]) && s == Source(typeKey, init[j].taskId, init[j].paths.value[k]);
      } else {
        assert ts[k] == s;
      }
    }
    if InGroup(typeKey, init, s) {
      var j, k :| 0 <= j < |init| && 0 <= k < PathCount(init[j]) &&
        s == Source(typeKey, init[j].taskId, init[j].paths.value[k]);
      assert tasks[j] == init[j];
      assert 0 <= j < |tasks| && 0 <= k < PathCount(tasks[j]) && s == Source(typeKey, tasks[j].taskId, tasks[j].paths.value[k]);
    }
    if s in ts {
      var k :| 0 <= k < |ts| && ts[k] == s;
      assert 0 <= n < |tasks| && 0 <= k < PathCount(tasks[n]) && s == Source(typeKey, tasks[n].taskId, tasks[n].paths.value[k]);
    }
  }

  /** The triples of a kind are exactly the paths of its tasks. */
  lemma {:induction false} GroupSourcesMembers(typeKey: string, tasks: seq<TaskPaths>, s: Source)
    ensures s in GroupSources(typeKey, tasks) <==> InGroup(typeKey, tasks, s)
  {
    if tasks != [] {
      GroupSourcesMembers(typeKey, tasks[..|tasks| - 1], s);
      InGroupSnoc(typeKey, tasks, s);
    }
  }

  /** Whether `s` is the `k`-th path of the `j`-th task of the `i`-th kind. */
  predicate InAnswer(groups: seq<TypeGroup>, s: Source) {
    exists i :: 0 <= i < |groups| && InGroup(groups[i].typeKey, groups[i].tasks, s)
  }

  /** An answer with one more kind: that kind's paths are added. */
  lemma InAnswerSnoc(groups: seq<TypeGroup>, s: Source)
    requires groups != []
    ensures InAnswer(groups, s) <==>
      InAnswer(groups[..|groups| - 1], s) || InGroup(groups[|groups| - 1].typeKey, groups[|groups| - 1].tasks, s)
  {
    var n := |groups| - 1;
    var init := groups[..n];
    if InAnswer(groups, s) {
      var i :| 0 <= i < |groups| && InGroup(groups[i].typeKey, groups[i].tasks, s);
      if i < n {
        assert init[i] == groups[i];
      }
    }
    if InAnswer(init, s) {
      var i :| 0 <= i < |init| && InGroup(init[i].typeKey, init[i].tasks, s);
      assert groups[i] == init[i];
    }
  }

  /** The triples of the answer are exactly its (kind, task, path) triples. */
  lemma {:induction false} SourcesMembers(groups: seq<TypeGroup>, s: Source)
    ensures s in Sources(groups) <==> InAnswer(groups, s)
  {
    if groups != [] {
      var g := groups[|groups| - 1];
      SourcesMembers(groups[..|groups| - 1], s);
      GroupSourcesMembers(g.typeKey, g.tasks, s);
      InAnswerSnoc(groups, s);
    }
  }

  /** Every stored checkpoint is drawn from one triple of the answer, and
      every triple gives one. */
  lemma FlattenMembers(modelId: Uuid, groups: seq<TypeGroup>, timeOf: string -> Time, d: Draft)
    ensures d in Flatten(modelId, groups, timeOf) <==>
      exists s :: InAnswer(groups, s) && d == DraftFor(modelId, s, timeOf)
  {
    var ss := Sources(groups);
    forall s | s in ss ensures InAnswer(groups, s) {
      SourcesMembers(groups, s);
    }
    if exists s :: InAnswer(groups, s) && d == DraftFor(modelId, s, timeOf) {
      var s :| InAnswer(groups, s) && d == DraftFor(modelId, s, timeOf);
      SourcesMembers(groups, s);
      var k :| 0 <= k < |ss| && ss[k] == s;
      assert Flatten(modelId, groups, timeOf)[k] == d;
    }
  }

  /** `toResponse`. */
  function ToResponse(c: Checkpoint): (r: CheckpointResponse)
    ensures r.id == c.id && r.modelId == c.draft.modelId && r.name == c.draft.name && r.path == c.draft.path
    ensures r.createdAt == c.draft.createdAt && r.checkpointType == c.draft.checkpointType
  {
    CheckpointResponse(c.id, c.draft.modelId, c.draft.name, c.draft.path, c.draft.createdAt, c.draft.checkpointType)
  }

  /** The response hides the task id: checkpoints that differ only there
      look the same. */
  lemma ToResponseHidesTaskId(c: Checkpoint, taskId: string)
    ensures ToResponse(c) == ToResponse(c.(draft := c.draft.(taskId := taskId)))
  {
  }

  /** The rows of one model, in table order. */
  function RowsOfModel(rows: seq<Checkpoint>, modelId: Uuid): (r: seq<Checkpoint>)
    ensures |r| <= |rows|
    ensures forall c :: c in r <==> c in rows && c.draft.modelId == modelId
  {
    if rows == [] then []
    else
      var init := RowsOfModel(rows[..|rows| - 1], modelId);
      var last := rows[|rows| - 1];
      assert rows == rows[..|rows| - 1] + [last];
      if last.draft.modelId == modelId then init + [last] else init
  }

  /** The responses for a list of rows, in order. */
  function Responses(rows: seq<Checkpoint>): (r: seq<CheckpointResponse>)
    ensures |r| == |rows| && forall k :: 0 <= k < |rows| ==> r[k] == ToResponse(rows[k])
  {
    seq(|rows|, k requires 0 <= k < |rows| => ToResponse(rows[k]))
  }

  /** No two ids of a list are equal. */
  predicate DistinctIds(ids: seq<Uuid>) {
    forall i, j :: 0 <= i < j < |ids| ==> ids[i] != ids[j]
  }

  /** No two rows share an id (the primary key). */
  predicate UniqueIds(rows: seq<Checkpoint>) {
    forall i, j :: 0 <= i < j < |rows| ==> rows[i].id != rows[j].id
  }

  /** The rows a list of drafts becomes once saved, each under the next of
      the generated ids. */
  function Saved(ids: seq<Uuid>, drafts: seq<Draft>): (r: seq<Checkpoint>)
    requires |drafts| <= |ids|
    ensures |r| == |drafts| && forall k :: 0 <= k < |drafts| ==> r[k] == Checkpoint(ids[k], drafts[k])
  {
    seq(|drafts|, k requires 0 <= k < |drafts| => Checkpoint(ids[k], drafts[k]))
  }

  /** Saving under distinct ids no existing row has keeps the primary key
      unique. */
  lemma SavedKeepsIdsUnique(rows: seq<Checkpoint>, ids: seq<Uuid>, drafts: seq<Draft>)
    requires UniqueIds(rows) && DistinctIds(ids) && |drafts| <= |ids|
    requires forall i, k :: 0 <= i < |ids| && 0 <= k < |rows| ==> ids[i] != rows[k].id
    ensures UniqueIds(rows + Saved(ids, drafts))
  {
    var all := rows + Saved(ids, drafts);
    forall i, j | 0 <= i < j < |all| ensures all[i].id != all[j].id {
      if j >= |rows| {
        assert all[j].id == ids[j - |rows|];
        if i >= |rows| {
          assert all[i].id == ids[i - |rows|];
        } else {
          assert all[i] == rows[i];
        }
      } else {
        assert all[i] == rows[i] && all[j] == rows[j];
      }
    }
  }

  /** The triples of one more task follow those of the tasks before it. */
  lemma GroupSourcesSnoc(typeKey: string, tasks: seq<TaskPaths>, j: nat)
    requires j < |tasks|
    ensures GroupSources(typeKey, tasks[..j + 1]) == GroupSources(typeKey, tasks[..j]) + TaskSources(typeKey, tasks[j])
  {
    assert tasks[..j + 1][..j] == tasks[..j];
  }

  /** Appending the checkpoints of more triples extends a partial result. */
  lemma DraftsStep(saved: seq<Draft>, before: seq<Draft>, after: seq<Draft>, modelId: Uuid,
                   done: seq<Source>, more: seq<Source>, timeOf: string -> Time)
    requires before == saved + Drafts(modelId, done, timeOf)
    requires after == before + Drafts(modelId, more, timeOf)
    ensures after == saved + Drafts(modelId, done + more, timeOf)
  {
    DraftsAppend(modelId, done, more, timeOf);
  }

  /** The loops of `fetchAndStoreBackendCheckpoints`: the checkpoints of
      every kind, in order. */
  method BuildCheckpoints(modelId: Uuid, groups: seq<TypeGroup>, timeOf: string -> Time) returns (saved: seq<Draft>)
    ensures saved == Flatten(modelId, groups, timeOf)
  {
    saved := [];
    var i := 0;
    while i < |groups|
      invariant 0 <= i <= |groups|
      invariant saved == Flatten(modelId, groups[..i], timeOf)
    {
      assert groups[..i + 1][..i] == groups[..i];
      DraftsAppend(modelId, Sources(groups[..i]), GroupSources(groups[i].typeKey, groups[i].tasks), timeOf);
      saved := AddGroup(saved, modelId, groups[i], timeOf);
      i := i + 1;
    }
    assert groups[..i] == groups;
  }

  /** The inner loops of the flattening: appends the checkpoints of one
      kind, task by task and path by path. */
  method AddGroup(saved: seq<Draft>, modelId: Uuid, g: TypeGroup, timeOf: string -> Time) returns (out: seq<Draft>)
    ensures out == saved + Drafts(modelId, GroupSources(g.typeKey, g.tasks), timeOf)
  {
    out := saved;
    var j := 0;
    while j < |g.tasks|
      invariant 0 <= j <= |g.tasks|
      invariant out == saved + Drafts(modelId, GroupSources(g.typeKey, g.tasks[..j]), timeOf)
    {
      var t := g.tasks[j];
      ghost var before := out;
      if t.paths.Some? && t.paths.value != [] {
        out := AddPaths(out, modelId, g.typeKey, t, timeOf);
      } else {
        assert TaskSources(g.typeKey, t) == [];
      }
      GroupSourcesSnoc(g.typeKey, g.tasks, j);
      DraftsStep(saved, before, out, modelId, GroupSources(g.typeKey, g.tasks[..j]), TaskSources(g.typeKey, t), timeOf);
      j := j + 1;
    }
    assert g.tasks[..j] == g.tasks;
  }

  /** Drafting one more triple extends the drafts of the triples before it. */
  lemma DraftsSnoc(saved: seq<Draft>, out: seq<Draft>, modelId: Uuid, ss: seq<Source>, k: nat,
                   timeOf: string -> Time)
    requires k < |ss|
    requires out == saved + Drafts(modelId, ss[..k], timeOf)
    ensures out + [DraftFor(modelId, ss[k], timeOf)] == saved + Drafts(modelId, ss[..k + 1], timeOf)
  {
    assert ss[..k + 1] == ss[..k] + [ss[k]];
    DraftsAppend(modelId, ss[..k], [ss[k]], timeOf);
  }

  /** The innermost loop: appends one checkpoint per path of a task. */
  method AddPaths(saved: seq<Draft>, modelId: Uuid, typeKey: string, t: TaskPaths, timeOf: string -> Time)
    returns (out: seq<Draft>)
    requires t.paths.Some?
    ensures out == saved + Drafts(modelId, TaskSources(typeKey, t), timeOf)
  {
    out := saved;
    var paths := t.paths.value;
    ghost var ss := TaskSources(typeKey, t);
    var k := 0;
    while k < |paths|
      invariant 0 <= k <= |paths| == |ss|
      invariant out == saved + Drafts(modelId, ss[..k], timeOf)
    {
      DraftsSnoc(saved, out, modelId, ss, k, timeOf);
      out := out + [DraftFor(modelId, Source(typeKey, t.taskId, paths[k]), timeOf)];
      k := k + 1;
    }
    assert ss[..k] == ss;
  }

  class CheckpointService {
    /** The `checkpoints` table. */
    var rows: seq<Checkpoint>

    /** The primary key is unique. */
    predicate Valid()
      reads this
    {
      UniqueIds(rows)
    }

    constructor()
      ensures Valid() && rows == []
    {
      rows := [];
    }

    /** `getByModelId`: the stored checkpoints of one model; a null model id
        raises MODEL_NOT_FOUND. */
    function GetByModelId(modelId: Option<Uuid>): (r: Result<seq<CheckpointResponse>>)
      reads this
      ensures modelId.None? <==> r == Err(ModelNotFound)
      ensures r.Ok? ==> r.value == Responses(RowsOfModel(rows, modelId.value))
    {
      if modelId.None? then Err(ModelNotFound)
      else Ok(Responses(RowsOfModel(rows, modelId.value)))
    }

    /** `fetchAndStoreBackendCheckpoints`: `fetched` is what fetching the
        backend's checkpoints gave (its own failure, or the possibly null
        answer). A missing or empty answer raises RESOURCE_NOT_FOUND;
        otherwise one checkpoint per path is built, in order, and all are
        saved together. If any of them breaks the entity's constraints
        (a null or blank path, a blank name, an over-long one), validation
        at insert fails the transaction: nothing is saved and the generic
        handler answers INTERNAL_SERVER_ERROR. `ids` are the ids the generator hands out, fresh
        and distinct, at least one per path. */
    method FetchAndStore(modelId: Uuid, fetched: Result<Option<BackendCheckpoints>>, timeOf: string -> Time,
                         ids: seq<Uuid>)
      returns (r: Result<seq<CheckpointResponse>>)
      requires Valid()
      requires DistinctIds(ids)
      requires forall i, k :: 0 <= i < |ids| && 0 <= k < |rows| ==> ids[i] != rows[k].id
      requires fetched.Ok? && fetched.value.Some? && fetched.value.value.tasks.Some? ==>
        |Flatten(modelId, fetched.value.value.tasks.value, timeOf)| <= |ids|
      modifies this
      ensures Valid()
      ensures fetched.Err? ==> r == Err(fetched.error) && rows == old(rows)
      ensures fetched.Ok? && (fetched.value.None? || fetched.value.value.tasks.None? || fetched.value.value.tasks.value == []) ==>
        r == Err(ResourceNotFound) && rows == old(rows)
      ensures fetched.Ok? && fetched.value.Some? && fetched.value.value.tasks.Some? && fetched.value.value.tasks.value != [] ==>
        var drafts := Flatten(modelId, fetched.value.value.tasks.value, timeOf);
        if AllStorable(drafts) then
          var added := Saved(ids, drafts);
          rows == old(rows) + added && r == Ok(Responses(added))
        else
          r == Err(InternalServerError) && rows == old(rows)
    {
      if fetched.Err? {
        return Err(fetched.error);
      }
      if fetched.value.None? || fetched.value.value.tasks.None? || fetched.value.value.tasks.value == [] {
        return Err(ResourceNotFound);
      }
      var saved := BuildCheckpoints(modelId, fetched.value.value.tasks.value, timeOf);
      if !AllStorable(saved) {
        return Err(InternalServerError);
      }
      var added := Saved(ids, saved);
      SavedKeepsIdsUnique(rows, ids, saved);
      rows := rows + added;
      r := Ok(Responses(added));
    }
  }
}
