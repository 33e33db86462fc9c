/**
 * The persisted entities of the kanban backend (backend/models/models.go)
 * and the invariants the model keeps over their tables. Two are declared by
 * the schema: project names are unique, and every task belongs to an
 * existing project, whose deletion takes its tasks with it. Two are kept by
 * the handlers: every status is one of the four the board knows (the column
 * only declares the default "waiting", which the import writes; an update
 * refuses any other value), and rows stay in the order of their
 * auto-increment keys (how the model lays the tables out). Timestamps are
 * not modelled.
 */
module Models {
  import opened Seqs

  /** A project (board); `id` is its primary key. */
  datatype Project = Project(id: nat, name: string)

  /** A task of a project; `id` 0 stands for a row not inserted yet. */
  datatype Task = Task(id: nat, projectId: nat, title: string, description: string, status: string, position: int)

  const Waiting := "waiting"

  /** The status column's default, and the statuses the update handler
      accepts (the column itself does not restrict them). */
  const DefaultStatus := Waiting
  const ValidStatuses: set<string> := {"waiting", "in_progress", "testing", "completed"}

  function ProjectIds(projects: seq<Project>): set<nat> {
    set p | p in projects :: p.id
  }

  /** Rows are kept in primary-key order; keys are therefore distinct. */
  predicate ProjectKeysIncreasing(projects: seq<Project>) {
    forall i, j :: 0 <= i < j < |projects| ==> projects[i].id < projects[j].id
  }

  predicate TaskKeysIncreasing(tasks: seq<Task>) {
    forall i, j :: 0 <= i < j < |tasks| ==> tasks[i].id < tasks[j].id
  }

  /** `unique;not null` on the project name. */
  predicate UniqueNames(projects: seq<Project>) {
    forall i, j :: 0 <= i < j < |projects| ==> projects[i].name != projects[j].name
  }

  /** The foreign key from a task to its project. */
  predicate Owned(tasks: seq<Task>, projects: seq<Project>) {
    forall i :: 0 <= i < |tasks| ==> tasks[i].projectId in ProjectIds(projects)
  }

  predicate KnownStatuses(tasks: seq<Task>) {
    forall i :: 0 <= i < |tasks| ==> tasks[i].status in ValidStatuses
  }

  /** The invariants of the two tables: the schema's constraints and the
      ones the handlers maintain. */
  predicate Consistent(projects: seq<Project>, tasks: seq<Task>) {
    && ProjectKeysIncreasing(projects)
    && TaskKeysIncreasing(tasks)
    && UniqueNames(projects)
    && Owned(tasks, projects)
    && KnownStatuses(tasks)
  }

  /** `WHERE project_id = ?`: the tasks of one project, in table order. */
  function TasksOf(tasks: seq<Task>, projectId: nat): (r: seq<Task>)
    ensures forall i :: 0 <= i < |r| ==> r[i].projectId == projectId && r[i] in tasks
    ensures forall i :: 0 <= i < |tasks| && tasks[i].projectId == projectId ==> tasks[i] in r
  {
    Filter(tasks, (t: Task) => t.projectId == projectId)
  }

  /** The rows left once a project is deleted: with `OnDelete:CASCADE` its
      tasks go with it. */
  function CascadeDelete(projects: seq<Project>, tasks: seq<Task>, projectId: nat): (r: (seq<Project>, seq<Task>))
    ensures projectId !in ProjectIds(r.0)
    ensures forall i :: 0 <= i < |r.1| ==> r.1[i].projectId != projectId
    ensures forall i :: 0 <= i < |projects| && projects[i].id != projectId ==> projects[i] in r.0
    ensures forall i :: 0 <= i < |tasks| && tasks[i].projectId != projectId ==> tasks[i] in r.1
    ensures forall i :: 0 <= i < |r.0| ==> r.0[i] in projects
    ensures forall i :: 0 <= i < |r.1| ==> r.1[i] in tasks
  {
    (Filter(projects, (p: Project) => p.id != projectId), Filter(tasks, (t: Task) => t.projectId != projectId))
  }

  /** The cascade keeps every table constraint: in particular no task is
      left pointing at the deleted project. */
  lemma CascadeDeleteConsistent(projects: seq<Project>, tasks: seq<Task>, projectId: nat)
    requires Consistent(projects, tasks)
    ensures Consistent(CascadeDelete(projects, tasks, projectId).0, CascadeDelete(projects, tasks, projectId).1)
  {
    var (projects', tasks') := CascadeDelete(projects, tasks, projectId);
    FilterPairwise(projects, (p: Project) => p.id != projectId, (p: Project, q: Project) => p.id < q.id);
    FilterPairwise(projects, (p: Project) => p.id != projectId, (p: Project, q: Project) => p.name != q.name);
    FilterPairwise(tasks, (t: Task) => t.projectId != projectId, (t: Task, u: Task) => t.id < u.id);
    CascadeDeleteOwned(projects, tasks, projectId);
  }

  /** Deleting a project that does not exist deletes nothing: with the
      foreign key in place no task can point at it. */
  lemma CascadeDeleteAbsent(projects: seq<Project>, tasks: seq<Task>, projectId: nat)
    requires Owned(tasks, projects) && projectId !in ProjectIds(projects)
    ensures CascadeDelete(projects, tasks, projectId) == (projects, tasks)
  {
    FilterAll(projects, (p: Project) => p.id != projectId);
    FilterAll(tasks, (t: Task) => t.projectId != projectId);
  }

  lemma CascadeDeleteOwned(projects: seq<Project>, tasks: seq<Task>, projectId: nat)
    requires Owned(tasks, projects) && KnownStatuses(tasks)
    ensures Owned(CascadeDelete(projects, tasks, projectId).1, CascadeDelete(projects, tasks, projectId).0)
    ensures KnownStatuses(CascadeDelete(projects, tasks, projectId).1)
  {
    var (projects', tasks') := CascadeDelete(projects, tasks, projectId);
    forall i | 0 <= i < |tasks'| ensures tasks'[i].projectId in ProjectIds(projects') && tasks'[i].status in ValidStatuses {
      var k :| 0 <= k < |tasks| && tasks[k] == tasks'[i];
      var p :| p in projects && p.id == tasks[k].projectId;
      var j :| 0 <= j < |projects| && projects[j] == p;
      assert p in projects';
    }
  }

  /** The rows left once the task with key `id` is deleted. */
  function WithoutTask(tasks: seq<Task>, id: nat): (r: seq<Task>)
    ensures forall i :: 0 <= i < |r| ==> r[i].id != id && r[i] in tasks
    ensures forall i :: 0 <= i < |tasks| && tasks[i].id != id ==> tasks[i] in r
  {
    Filter(tasks, (t: Task) => t.id != id)
  }

  lemma WithoutTaskConsistent(projects: seq<Project>, tasks: seq<Task>, id: nat)
    requires Consistent(projects, tasks)
    ensures Consistent(projects, WithoutTask(tasks, id))
  {
    FilterPairwise(tasks, (t: Task) => t.id != id, (t: Task, u: Task) => t.id < u.id);
    var tasks' := WithoutTask(tasks, id);
    forall i | 0 <= i < |tasks'| ensures tasks'[i].projectId in ProjectIds(projects) && tasks'[i].status in ValidStatuses {
      var k :| 0 <= k < |tasks| && tasks[k] == tasks'[i];
    }
  }

  /** With keys in increasing order, deleting by key removes exactly the
      one row that has it, and keeps the others in order. */
  lemma WithoutTaskRemovesOne(tasks: seq<Task>, k: nat)
    requires TaskKeysIncreasing(tasks) && k < |tasks|
    ensures WithoutTask(tasks, tasks[k].id) == tasks[..k] + tasks[k + 1..]
  {
    var id := tasks[k].id;
    forall i | 0 <= i < |tasks| && i != k ensures tasks[i].id != id {
      if i < k {
        assert tasks[i].id < tasks[k].id;
      } else {
        assert tasks[k].id < tasks[i].id;
      }
    }
    FilterOne(tasks, k, (t: Task) => t.id != id);
  }

  /** Deleting a key no row has deletes nothing. */
  lemma WithoutAbsentTask(tasks: seq<Task>, id: nat)
    requires forall i :: 0 <= i < |tasks| ==> tasks[i].id != id
    ensures WithoutTask(tasks, id) == tasks
  {
    FilterAll(tasks, (t: Task) => t.id != id);
  }
}
