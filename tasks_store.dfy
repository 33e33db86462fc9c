/**
 * The front end's tasks (frontend-svelte/src/lib/stores/tasks.js): one list
 * of tasks per project key, plus the `loading` and `error` flags. As for
 * the project list, the outcome of each API call is a parameter; a rejected
 * call leaves the lists as they were and sets `error`, and every operation
 * ends with `loading` false.
 */
module TasksStore {
  import opened Wrappers
  import opened Seqs
  import opened Models
  import opened ApiResults

  /** A JSON task object as it comes back from the server: each field may
      be present or not. */
  datatype TaskFields = TaskFields(
    id: Option<nat>,
    projectId: Option<nat>,
    title: Option<string>,
    description: Option<string>,
    status: Option<string>,
    position: Option<int>)

  /** The object a task serialises to: every field present. */
  function FieldsOf(t: Task): TaskFields {
    TaskFields(Some(t.id), Some(t.projectId), Some(t.title), Some(t.description), Some(t.status), Some(t.position))
  }

  /** `{ ...t, ...fields }`: the fields present win, the others stay. */
  function Overlay(t: Task, fields: TaskFields): (r: Task)
    ensures fields == TaskFields(None, None, None, None, None, None) ==> r == t
    ensures (fields.id.None? ==> r.id == t.id) && (fields.id.Some? ==> r.id == fields.id.value)
    ensures (fields.projectId.None? ==> r.projectId == t.projectId) && (fields.projectId.Some? ==> r.projectId == fields.projectId.value)
    ensures (fields.title.None? ==> r.title == t.title) && (fields.title.Some? ==> r.title == fields.title.value)
    ensures (fields.description.None? ==> r.description == t.description)
            && (fields.description.Some? ==> r.description == fields.description.value)
    ensures (fields.status.None? ==> r.status == t.status) && (fields.status.Some? ==> r.status == fields.status.value)
    ensures (fields.position.None? ==> r.position == t.position) && (fields.position.Some? ==> r.position == fields.position.value)
  {
    Task(fields.id.GetOr(t.id), fields.projectId.GetOr(t.projectId), fields.title.GetOr(t.title),
         fields.description.GetOr(t.description), fields.status.GetOr(t.status), fields.position.GetOr(t.position))
  }

  /** The server answers an update with the whole task, so the local copy
      becomes exactly the server's, whatever it held before; overlaying the
      same reply again changes nothing. */
  lemma OverlayFullReply(t: Task, reply: Task)
    ensures Overlay(t, FieldsOf(reply)) == reply
    ensures Overlay(Overlay(t, FieldsOf(reply)), FieldsOf(reply)) == Overlay(t, FieldsOf(reply))
  {
  }

  /** One project's list after an update: the first task with the key
      gets the reply overlaid; every other element stays as it was. */
  function MergedInto(list: seq<Task>, taskId: nat, fields: TaskFields): (r: seq<Task>)
    ensures |r| == |list|
    ensures forall i :: 0 <= i < |list| && list[i].id != taskId ==> r[i] == list[i]
    ensures (forall i :: 0 <= i < |list| ==> list[i].id != taskId) ==> r == list
  {
    var i := FindIndex(list, (t: Task) => t.id == taskId);
    if i >= 0 then list[i := Overlay(list[i], fields)] else list
  }

  /** The statements of the `forEach` callback on one project's list,
      proved to compute their specification `MergedInto`. */
  method MergeInto(list: seq<Task>, taskId: nat, fields: TaskFields) returns (r: seq<Task>)
    ensures r == MergedInto(list, taskId, fields)
  {
    r := list;
    var taskIndex := FindIndex(r, (t: Task) => t.id == taskId);
    if taskIndex >= 0 {
      r := r[taskIndex := Overlay(r[taskIndex], fields)];
    }
  }

  /** Where the key occurs, its first occurrence is the one overlaid, and
      only that one. */
  lemma MergedIntoFirst(list: seq<Task>, taskId: nat, fields: TaskFields, k: nat)
    requires k < |list| && list[k].id == taskId
    requires forall j :: 0 <= j < k ==> list[j].id != taskId
    ensures MergedInto(list, taskId, fields) == list[k := Overlay(list[k], fields)]
  {
    var i := FindIndex(list, (t: Task) => t.id == taskId);
    assert i == k;
  }

  /** The whole map after an update: the same keys, every list keeping its
      length and every task with another key; a list without the key is
      left as it was. */
  function MergedEverywhere(tasks: map<nat, seq<Task>>, taskId: nat, fields: TaskFields): (r: map<nat, seq<Task>>)
    ensures r.Keys == tasks.Keys
    ensures forall k :: k in tasks ==> |r[k]| == |tasks[k]|
    ensures forall k, i :: k in tasks && 0 <= i < |tasks[k]| && tasks[k][i].id != taskId ==> r[k][i] == tasks[k][i]
    ensures forall k :: k in tasks && (forall i :: 0 <= i < |tasks[k]| ==> tasks[k][i].id != taskId) ==> r[k] == tasks[k]
  {
    map k | k in tasks :: MergedInto(tasks[k], taskId, fields)
  }

  /** In every project's list holding the key, its first occurrence is the
      one overlaid, and only that one. */
  lemma MergedEverywhereFirst(tasks: map<nat, seq<Task>>, taskId: nat, fields: TaskFields, projectId: nat, k: nat)
    requires projectId in tasks && k < |tasks[projectId]| && tasks[projectId][k].id == taskId
    requires forall j :: 0 <= j < k ==> tasks[projectId][j].id != taskId
    ensures MergedEverywhere(tasks, taskId, fields)[projectId] == tasks[projectId][k := Overlay(tasks[projectId][k], fields)]
  {
    MergedIntoFirst(tasks[projectId], taskId, fields, k);
  }

  /** The `forEach` over the keys of a shallow copy of the map. */
  method MergeEverywhere(tasks: map<nat, seq<Task>>, taskId: nat, fields: TaskFields) returns (newTasks: map<nat, seq<Task>>)
    ensures newTasks == MergedEverywhere(tasks, taskId, fields)
  {
    newTasks := tasks;
    var pending := tasks.Keys;
    while pending != {}
      invariant pending <= tasks.Keys && newTasks.Keys == tasks.Keys
      invariant forall k :: k in pending ==> newTasks[k] == tasks[k]
      invariant forall k :: k in tasks && k !in pending ==> newTasks[k] == MergedInto(tasks[k], taskId, fields)
      decreases pending
    {
      var projectId :| projectId in pending;
      var list := MergeInto(newTasks[projectId], taskId, fields);
      newTasks := newTasks[projectId := list];
      pending := pending - {projectId};
    }
  }

  /** Receiving the same reply twice leaves every list as receiving it
      once: the overlaid task keeps the key, so the second pass finds it
      again at the same place and the reply already matches it. */
  lemma {:induction false} MergedIntoIdempotent(list: seq<Task>, reply: Task)
    ensures MergedInto(MergedInto(list, reply.id, FieldsOf(reply)), reply.id, FieldsOf(reply)) == MergedInto(list, reply.id, FieldsOf(reply))
  {
    var fields := FieldsOf(reply);
    var once := MergedInto(list, reply.id, fields);
    var k := FindIndex(list, (t: Task) => t.id == reply.id);
    if k >= 0 {
      OverlayFullReply(list[k], reply);
      assert once[k] == reply;
      MergedIntoFirst(once, reply.id, fields, k);
    }
  }

  lemma MergedEverywhereIdempotent(tasks: map<nat, seq<Task>>, reply: Task)
    ensures MergedEverywhere(MergedEverywhere(tasks, reply.id, FieldsOf(reply)), reply.id, FieldsOf(reply))
            == MergedEverywhere(tasks, reply.id, FieldsOf(reply))
  {
    forall k | k in tasks
      ensures MergedInto(MergedInto(tasks[k], reply.id, FieldsOf(reply)), reply.id, FieldsOf(reply)) == MergedInto(tasks[k], reply.id, FieldsOf(reply))
    {
      MergedIntoIdempotent(tasks[k], reply);
    }
  }

  /** The list of a project after a delete: `(tasks[projectId] || [])`
      filtered, so a project without a list ends up with an empty one. */
  function RemovedFrom(tasks: map<nat, seq<Task>>, projectId: nat, taskId: nat): (r: seq<Task>)
    ensures forall i :: 0 <= i < |r| ==> r[i].id != taskId
    ensures projectId !in tasks ==> r == []
    ensures projectId in tasks ==> forall i :: 0 <= i < |tasks[projectId]| && tasks[projectId][i].id != taskId ==> tasks[projectId][i] in r
    ensures projectId in tasks ==> forall i :: 0 <= i < |r| ==> r[i] in tasks[projectId]
  {
    Filter(if projectId in tasks then tasks[projectId] else [], (t: Task) => t.id != taskId)
  }

  class TasksStore {
    var tasks: map<nat, seq<Task>>
    var loading: bool
    var error: Option<string>

    constructor ()
      ensures tasks == map[] && !loading && error == None
    {
      tasks, loading, error := map[], false, None;
    }

    /** fetchByProject: the project's list becomes the server's; the reply
        is handed back, or None when the call was rejected (the source
        throws). */
    method FetchByProject(projectId: nat, response: ApiResult<seq<Task>>) returns (data: Option<seq<Task>>)
      modifies this
      ensures !loading
      ensures response.Ok? ==> tasks == old(tasks)[projectId := response.data] && error == None && data == Some(response.data)
      ensures response.Failed? ==> tasks == old(tasks) && data == None
      ensures response.Failed? ==> error == Some(ErrorMessage(response.err, "Failed to fetch tasks"))
    {
      loading, error := true, None;
      match response {
        case Ok(reply) =>
          tasks := tasks[projectId := reply];
          data := Some(reply);
        case Failed(e) =>
          error := Some(ErrorMessage(e, "Failed to fetch tasks"));
          data := None;
      }
      loading := false;
    }

    /** updateTask: the reply is overlaid on the task with the key in every
        project's list, one key at a time. */
    method UpdateTask(taskId: nat, response: ApiResult<TaskFields>) returns (data: Option<TaskFields>)
      modifies this
      ensures !loading
      ensures response.Ok? ==> tasks == MergedEverywhere(old(tasks), taskId, response.data) && error == None && data == Some(response.data)
      ensures response.Failed? ==> tasks == old(tasks) && data == None
      ensures response.Failed? ==> error == Some(ErrorMessage(response.err, "Failed to update task"))
    {
      loading, error := true, None;
      match response {
        case Ok(reply) =>
          var newTasks := MergeEverywhere(tasks, taskId, reply);
          tasks := newTasks;
          data := Some(reply);
        case Failed(e) =>
          error := Some(ErrorMessage(e, "Failed to update task"));
          data := None;
      }
      loading := false;
    }

    /** deleteTask: once the server confirms, the task leaves the given
        project's list; the other lists are untouched. Returns whether the
        call succeeded. */
    method DeleteTask(taskId: nat, projectId: nat, response: ApiResult<()>) returns (ok: bool)
      modifies this
      ensures !loading
      ensures ok <==> response.Ok?
      ensures ok ==> tasks == old(tasks)[projectId := RemovedFrom(old(tasks), projectId, taskId)] && error == None
      ensures !ok ==> tasks == old(tasks) && error == Some(ErrorMessage(response.err, "Failed to delete task"))
    {
      loading, error := true, None;
      match response {
        case Ok(_) =>
          tasks := tasks[projectId := Filter(if projectId in tasks then tasks[projectId] else [], (t: Task) => t.id != taskId)];
          ok := true;
        case Failed(e) =>
          error := Some(ErrorMessage(e, "Failed to delete task"));
          ok := false;
      }
      loading := false;
    }

    method ClearError()
      modifies this
      ensures error == None && tasks == old(tasks) && loading == old(loading)
    {
      error := None;
    }

    method ClearTasks()
      modifies this
      ensures tasks == map[] && error == old(error) && loading == old(loading)
    {
      tasks := map[];
    }
  }
}
