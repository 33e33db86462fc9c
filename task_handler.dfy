/**
 * The task endpoints (backend/handlers/task_handler.go): a partial update
 * of a task's fields with validation of the status, and deletion by key.
 */
module TaskHandler {
  import opened Wrappers
  import opened Models
  import opened Database

  /** The JSON body of an update; a field left out of it is None. */
  datatype UpdateTaskRequest = UpdateTaskRequest(
    title: Option<string>,
    description: Option<string>,
    status: Option<string>,
    position: Option<int>)

  datatype UpdateOutcome = TaskNotFound | InvalidBody | InvalidStatus | Updated(task: Task)

  /** The task an update asks for: every field present in the request
      replaces the task's, the others stay; None when the request names a
      status outside the four known ones. */
  function Patched(t: Task, req: UpdateTaskRequest): (r: Option<Task>)
    ensures r.None? <==> req.status.Some? && req.status.value !in ValidStatuses
    ensures r.Some? ==> r.value.id == t.id && r.value.projectId == t.projectId
    ensures r.Some? && t.status in ValidStatuses ==> r.value.status in ValidStatuses
  {
    if req.status.Some? && req.status.value !in ValidStatuses then None
    else Some(t.(title := req.title.GetOr(t.title),
                 description := req.description.GetOr(t.description),
                 status := req.status.GetOr(t.status),
                 position := req.position.GetOr(t.position)))
  }

  /** A field absent from the request keeps its value; a present one,
      including any position at all, is taken as given. */
  lemma PatchedFields(t: Task, req: UpdateTaskRequest)
    requires Patched(t, req).Some?
    ensures var u := Patched(t, req).value;
      && (req.title.None? ==> u.title == t.title) && (req.title.Some? ==> u.title == req.title.value)
      && (req.description.None? ==> u.description == t.description)
      && (req.description.Some? ==> u.description == req.description.value)
      && (req.status.None? ==> u.status == t.status) && (req.status.Some? ==> u.status == req.status.value)
      && (req.position.None? ==> u.position == t.position) && (req.position.Some? ==> u.position == req.position.value)
  {
  }

  /** An empty request changes nothing, and applying a request twice is
      the same as applying it once. */
  lemma PatchedIdempotent(t: Task, req: UpdateTaskRequest)
    ensures Patched(t, UpdateTaskRequest(None, None, None, None)) == Some(t)
    ensures Patched(t, req).Some? ==> Patched(Patched(t, req).value, req) == Patched(t, req)
  {
  }

  /** UpdateTask: not found when no task has the key; a body that does not
      bind is refused; then the present fields are overwritten one by one,
      and an unknown status refuses the whole update, so that nothing is
      saved; otherwise the task is saved in place. */
  method UpdateTask(db: Store, id: nat, body: Option<UpdateTaskRequest>) returns (r: UpdateOutcome)
    requires db.Valid()
    modifies db
    ensures db.Valid()
    ensures r.TaskNotFound? <==> old(db.FindTask(id)).None?
    ensures r.InvalidBody? <==> old(db.FindTask(id)).Some? && body.None?
    ensures r.InvalidStatus? <==> old(db.FindTask(id)).Some? && body.Some? && Patched(old(db.FindTask(id)).value, body.value).None?
    ensures !r.Updated? ==> unchanged(db)
    ensures r.Updated? ==>
              && Patched(old(db.FindTask(id)).value, body.value) == Some(r.task)
              && db.projects == old(db.projects)
              && exists k :: 0 <= k < |old(db.tasks)| && old(db.tasks)[k].id == id && db.tasks == old(db.tasks)[k := r.task]
  {
    var found := db.FindTask(id);
    if found.None? {
      return TaskNotFound;
    }
    if body.None? {
      return InvalidBody;
    }
    var req := body.value;
    var task := found.value;
    if req.title.Some? {
      task := task.(title := req.title.value);
    }
    if req.description.Some? {
      task := task.(description := req.description.value);
    }
    if req.status.Some? {
      if req.status.value !in ValidStatuses {
        return InvalidStatus;
      }
      task := task.(status := req.status.value);
    }
    if req.position.Some? {
      task := task.(position := req.position.value);
    }
    assert Some(task) == Patched(found.value, req);
    var k := db.SaveTask(task);
    return Updated(task);
  }

  datatype DeleteOutcome = NotFound | Deleted

  /** DeleteTask: the task with the key is removed, the others stay in
      order; not found when no task has the key, and then nothing
      changes. */
  method DeleteTask(db: Store, id: nat) returns (r: DeleteOutcome)
    requires db.Valid()
    modifies db
    ensures db.Valid()
    ensures r == NotFound <==> forall i :: 0 <= i < |old(db.tasks)| ==> old(db.tasks)[i].id != id
    ensures r == NotFound ==> db.tasks == old(db.tasks)
    ensures forall k :: 0 <= k < |old(db.tasks)| && old(db.tasks)[k].id == id ==>
              db.tasks == old(db.tasks)[..k] + old(db.tasks)[k + 1..]
    ensures db.projects == old(db.projects)
  {
    ghost var before := db.tasks;
    forall k | 0 <= k < |before| && before[k].id == id ensures WithoutTask(before, id) == before[..k] + before[k + 1..] {
      WithoutTaskRemovesOne(before, k);
    }
    if forall i :: 0 <= i < |before| ==> before[i].id != id {
      WithoutAbsentTask(before, id);
    }
    var rowsAffected := db.DeleteTask(id);
    if rowsAffected == 0 {
      return NotFound;
    }
    return Deleted;
  }
}
