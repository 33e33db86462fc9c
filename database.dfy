/**
 * The persistence layer the handlers talk to, as one object holding the
 * two tables: the projects and the tasks, each in primary-key order, with
 * the next keys the auto-increment columns will hand out. Each method is
 * one GORM call the handlers make, taken as a single atomic step.
 */
module Database {
  import opened Seqs
  import opened Wrappers
  import opened Models

  /** `COALESCE(MAX(position), -1)` over the tasks of one project. */
  function MaxPosition(tasks: seq<Task>, projectId: nat): (m: int)
    ensures forall i :: 0 <= i < |tasks| && tasks[i].projectId == projectId ==> tasks[i].position <= m
    ensures (exists i :: 0 <= i < |tasks| && tasks[i].projectId == projectId && tasks[i].position == m)
            || (m == -1 && forall i :: 0 <= i < |tasks| ==> tasks[i].projectId != projectId)
    decreases |tasks|
  {
    if tasks == [] then -1
    else
      var m := MaxPosition(tasks[..|tasks| - 1], projectId);
      var last := tasks[|tasks| - 1];
      assert forall i :: 0 <= i < |tasks| - 1 ==> tasks[..|tasks| - 1][i] == tasks[i];
      if last.projectId != projectId then m
      else if m == -1 && forall i :: 0 <= i < |tasks| - 1 ==> tasks[i].projectId != projectId then last.position
      else if last.position > m then last.position
      else m
  }

  /** The rows of a batch insert, keyed in order from `first`: the keys are
      fresh (from `first` up, below `first + |batch|`) and strictly
      increasing, and every other column is the batch's. */
  function Numbered(batch: seq<Task>, first: nat): (rows: seq<Task>)
    ensures |rows| == |batch|
    ensures forall i :: 0 <= i < |rows| ==> first <= rows[i].id < first + |batch|
    ensures forall i, j :: 0 <= i < j < |rows| ==> rows[i].id < rows[j].id
    ensures forall i :: 0 <= i < |rows| ==>
              && rows[i].projectId == batch[i].projectId && rows[i].title == batch[i].title
              && rows[i].description == batch[i].description && rows[i].status == batch[i].status
              && rows[i].position == batch[i].position
  {
    seq(|batch|, i requires 0 <= i < |batch| => batch[i].(id := first + i))
  }

  class Store {
    var projects: seq<Project>
    var tasks: seq<Task>
    var nextProjectId: nat
    var nextTaskId: nat

    /** The table constraints, and keys below the next ones handed out. */
    ghost predicate Valid()
      reads this
    {
      && Consistent(projects, tasks)
      && 0 < nextProjectId && 0 < nextTaskId
      && (forall i :: 0 <= i < |projects| ==> 0 < projects[i].id < nextProjectId)
      && (forall i :: 0 <= i < |tasks| ==> 0 < tasks[i].id < nextTaskId)
    }

    /** The freshly migrated, empty database. */
    constructor ()
      ensures Valid() && projects == [] && tasks == []
    {
      projects, tasks := [], [];
      nextProjectId, nextTaskId := 1, 1;
    }

    /** `Where("name = ?", name).First`: the project with that name. */
    function FindByName(name: string): (r: Option<Project>)
      reads this
      ensures r.Some? ==> r.value in projects && r.value.name == name
      ensures r.None? ==> forall i :: 0 <= i < |projects| ==> projects[i].name != name
    {
      var i := FindIndex(projects, (p: Project) => p.name == name);
      if i < 0 then None else Some(projects[i])
    }

    /** `First(&task, id)`: the task with that key. */
    function FindTask(id: nat): (r: Option<Task>)
      reads this
      ensures r.Some? ==> r.value in tasks && r.value.id == id
      ensures r.None? ==> forall i :: 0 <= i < |tasks| ==> tasks[i].id != id
    {
      var i := FindIndex(tasks, (t: Task) => t.id == id);
      if i < 0 then None else Some(tasks[i])
    }

    /** `Create(&project)`: a new row with the next key. The name's unique
        constraint is the caller's to respect. */
    method CreateProject(name: string) returns (p: Project)
      requires Valid()
      requires forall i :: 0 <= i < |projects| ==> projects[i].name != name
      modifies this
      ensures Valid()
      ensures p == Project(old(nextProjectId), name) && p.id !in ProjectIds(old(projects))
      ensures projects == old(projects) + [p] && tasks == old(tasks) && nextTaskId == old(nextTaskId)
    {
      p := Project(nextProjectId, name);
      projects := projects + [p];
      nextProjectId := nextProjectId + 1;
      assert ProjectIds(old(projects)) <= ProjectIds(projects);
      assert forall i :: 0 <= i < |projects| ==> projects[i] == if i < |old(projects)| then old(projects)[i] else p;
    }

    /** `Create(&taskModels)`: the batch, keyed in order from the next key. */
    method CreateTasks(batch: seq<Task>) returns (rows: seq<Task>)
      requires Valid()
      requires forall i :: 0 <= i < |batch| ==> batch[i].projectId in ProjectIds(projects) && batch[i].status in ValidStatuses
      modifies this
      ensures Valid()
      ensures rows == Numbered(batch, old(nextTaskId))
      ensures tasks == old(tasks) + rows && projects == old(projects) && nextTaskId == old(nextTaskId) + |batch|
    {
      rows := Numbered(batch, nextTaskId);
      tasks := tasks + rows;
      nextTaskId := nextTaskId + |batch|;
      assert forall i :: 0 <= i < |tasks| ==> tasks[i] == if i < |old(tasks)| then old(tasks)[i] else rows[i - |old(tasks)|];
    }

    /** `Save(&task)`: overwrite the row with the task's key. */
    method SaveTask(t: Task) returns (index: nat)
      requires Valid()
      requires exists i :: 0 <= i < |tasks| && tasks[i].id == t.id && tasks[i].projectId == t.projectId
      requires t.status in ValidStatuses
      modifies this
      ensures Valid()
      ensures index < |old(tasks)| && old(tasks)[index].id == t.id
      ensures tasks == old(tasks)[index := t] && projects == old(projects)
    {
      var i := FindIndex(tasks, (u: Task) => u.id == t.id);
      index := i;
      tasks := tasks[index := t];
    }

    /** `Delete(&Project{}, id)`: the number of rows deleted; the
        foreign key's cascade removes the project's tasks with it. */
    method DeleteProject(id: nat) returns (rowsAffected: nat)
      requires Valid()
      modifies this
      ensures Valid()
      ensures rowsAffected == (if id in ProjectIds(old(projects)) then 1 else 0)
      ensures (projects, tasks) == CascadeDelete(old(projects), old(tasks), id)
    {
      rowsAffected := if id in ProjectIds(projects) then 1 else 0;
      CascadeDeleteConsistent(projects, tasks, id);
      var (projects', tasks') := CascadeDelete(projects, tasks, id);
      projects, tasks := projects', tasks';
    }

    /** `Delete(&Task{}, id)`: the number of rows deleted. */
    method DeleteTask(id: nat) returns (rowsAffected: nat)
      requires Valid()
      modifies this
      ensures Valid()
      ensures rowsAffected == (if exists i :: 0 <= i < |old(tasks)| && old(tasks)[i].id == id then 1 else 0)
      ensures tasks == WithoutTask(old(tasks), id) && projects == old(projects)
    {
      var i := FindIndex(tasks, (t: Task) => t.id == id);
      rowsAffected := if i < 0 then 0 else 1;
      WithoutTaskConsistent(projects, tasks, id);
      tasks := WithoutTask(tasks, id);
    }
  }
}
