/**
 * The project endpoints (backend/handlers/project_handler.go): importing a
 * markdown backlog into a project, deleting a project, and listing a
 * project's tasks in board order. The request is reduced to what the
 * handlers read from it; each handler is one step on the store.
 */
module ProjectHandler {
  import opened Wrappers
  import opened Strings
  import opened Seqs
  import opened Models
  import opened Database
  import MarkdownParser

  /** isMarkdownFile: the name is longer than three characters and ends in
      ".md", so that ".md" alone is refused. */
  function IsMarkdownFile(filename: string): (b: bool)
    ensures b <==> HasSuffix(filename, ".md") && filename != ".md"
  {
    |filename| > 3 && filename[|filename| - 3..] == ".md"
  }

  /** The upload is taken as markdown when its declared content type says
      so or its file name does. */
  predicate AcceptsUpload(contentType: string, filename: string) {
    contentType == "text/markdown" || IsMarkdownFile(filename)
  }

  datatype UploadOutcome =
    | NotMarkdown
    | InvalidMarkdown(error: MarkdownParser.ParseError)
    | Uploaded(project: Project, tasksCreated: nat)

  /** Both refusals are answered 400 Bad Request, an upload 200 OK. */
  function UploadStatus(r: UploadOutcome): (code: int)
    ensures code == 200 <==> r.Uploaded?
    ensures !r.Uploaded? ==> code == 400
  {
    if r.Uploaded? then 200 else 400
  }

  const InvalidMarkdownPrefix := "Invalid markdown format: "

  /** The `error` field of a refused upload's reply. */
  function UploadError(r: UploadOutcome): (message: string)
    requires !r.Uploaded?
    ensures r.InvalidMarkdown? <==> HasPrefix(message, InvalidMarkdownPrefix)
  {
    match r
    case NotMarkdown =>
      var m := "Only markdown files (.md) are allowed";
      assert m[0] != InvalidMarkdownPrefix[0];
      m
    case InvalidMarkdown(e) => InvalidMarkdownPrefix + MarkdownParser.ErrorMessage(e)
  }

  /** The reply tells every refusal apart: each cause has its own message. */
  lemma UploadErrorsDistinct(a: UploadOutcome, b: UploadOutcome)
    requires !a.Uploaded? && !b.Uploaded? && a != b
    ensures UploadError(a) != UploadError(b)
  {
    if a.InvalidMarkdown? && b.InvalidMarkdown? {
      var pa, pb := MarkdownParser.ErrorMessage(a.error), MarkdownParser.ErrorMessage(b.error);
      assert UploadError(a)[|InvalidMarkdownPrefix|..] == pa;
      assert UploadError(b)[|InvalidMarkdownPrefix|..] == pb;
      assert pa[0] != pb[0];
    }
  }

  const MinInt64 := -0x8000_0000_0000_0000
  const MaxInt64 := 0x7fff_ffff_ffff_ffff

  predicate IsInt64(x: int) {
    MinInt64 <= x <= MaxInt64
  }

  /** Go's 64-bit `int` arithmetic: the value of `x` wrapped into the
      two's-complement range. */
  function Wrap64(x: int): (r: int)
    ensures IsInt64(r)
    ensures IsInt64(x) ==> r == x
    ensures MaxInt64 < x <= MaxInt64 + 0x1_0000_0000_0000_0000 ==> r == x - 0x1_0000_0000_0000_0000
  {
    (x - MinInt64) % 0x1_0000_0000_0000_0000 + MinInt64
  }

  /** The rows an import inserts, before the store gives them keys: task i
      of the document, in project `projectId`, waiting, at position
      `maxPosition + 1 + i` computed in Go's 64-bit `int`. */
  function NewRows(tasks: seq<MarkdownParser.TaskData>, projectId: nat, maxPosition: int): (rows: seq<Task>)
    ensures |rows| == |tasks|
  {
    seq(|tasks|, i requires 0 <= i < |tasks| => Task(0, projectId, tasks[i].title, tasks[i].description, Waiting, Wrap64(maxPosition + 1 + i)))
  }

  /** The positions an import hands out: above every position the project
      already uses, consecutive and therefore pairwise distinct; into a
      project without tasks, 0, 1, 2, ... So long, that is, as the last new
      position does not pass the largest 64-bit `int` (`NewRowsWrapAround`
      shows what happens when it does). */
  lemma NewRowsPositions(tasks: seq<Task>, projectId: nat, parsed: seq<MarkdownParser.TaskData>, m: int)
    requires m == MaxPosition(tasks, projectId)
    requires MinInt64 <= m + 1 && m + |parsed| <= MaxInt64
    ensures forall i, j :: 0 <= i < |tasks| && tasks[i].projectId == projectId && 0 <= j < |parsed| ==>
              tasks[i].position < NewRows(parsed, projectId, m)[j].position
    ensures forall j :: 0 < j < |parsed| ==> NewRows(parsed, projectId, m)[j].position == NewRows(parsed, projectId, m)[j - 1].position + 1
    ensures forall j, k :: 0 <= j < k < |parsed| ==> NewRows(parsed, projectId, m)[j].position < NewRows(parsed, projectId, m)[k].position
    ensures (forall i :: 0 <= i < |tasks| ==> tasks[i].projectId != projectId) ==>
              forall j :: 0 <= j < |parsed| ==> NewRows(parsed, projectId, m)[j].position == j
  {
    NewRowsInRange(parsed, projectId, m);
  }

  /** While they fit in 64 bits the new positions do not wrap. */
  lemma NewRowsInRange(parsed: seq<MarkdownParser.TaskData>, projectId: nat, m: int)
    requires MinInt64 <= m + 1 && m + |parsed| <= MaxInt64
    ensures forall j :: 0 <= j < |parsed| ==> NewRows(parsed, projectId, m)[j].position == m + 1 + j
  {
  }

  /** As written, an import into a project whose highest position is the
      largest 64-bit `int` wraps round: the new task lands at the smallest
      position, before every task the project had. */
  lemma NewRowsWrapAround()
    ensures var tasks := [Task(1, 1, "Top", "", Waiting, MaxInt64)];
            var rows := NewRows([MarkdownParser.TaskData("New", "")], 1, MaxPosition(tasks, 1));
            rows[0].position == MinInt64 && rows[0].position < tasks[0].position
  {
    var tasks := [Task(1, 1, "Top", "", Waiting, MaxInt64)];
    assert MaxPosition(tasks, 1) == MaxInt64;
  }

  /** The rows of an import that refuses, instead of wrapping, when the new
      positions do not fit in a 64-bit `int`. */
  /** The position the import computes for its i-th task, before Go's
      64-bit `int` wraps it. */
  function NewPosition(maxPosition: int, i: nat): int {
    maxPosition + 1 + i
  }

  function CheckedNewRows(tasks: seq<MarkdownParser.TaskData>, projectId: nat, maxPosition: int): (r: Option<seq<Task>>)
    ensures |tasks| > 0 ==> (r.None? <==> exists j :: 0 <= j < |tasks| && !IsInt64(NewPosition(maxPosition, j)))
    ensures r.Some? ==> |r.value| == |tasks|
    ensures r.Some? ==> forall j :: 0 <= j < |tasks| ==>
              && r.value[j].position == NewPosition(maxPosition, j)
              && r.value[j].projectId == projectId && r.value[j].status == Waiting
              && r.value[j].title == tasks[j].title && r.value[j].description == tasks[j].description
  {
    if MinInt64 <= maxPosition + 1 && maxPosition + |tasks| <= MaxInt64 then
      NewRowsInRange(tasks, projectId, maxPosition);
      Some(NewRows(tasks, projectId, maxPosition))
    else
      assert |tasks| > 0 ==> !IsInt64(NewPosition(maxPosition, 0)) || !IsInt64(NewPosition(maxPosition, |tasks| - 1));
      None
  }

  /** With the check, every new position lies above every position the
      project already uses, for all inputs. */
  lemma CheckedNewRowsAbove(tasks: seq<Task>, projectId: nat, parsed: seq<MarkdownParser.TaskData>)
    requires CheckedNewRows(parsed, projectId, MaxPosition(tasks, projectId)).Some?
    ensures var rows := CheckedNewRows(parsed, projectId, MaxPosition(tasks, projectId)).value;
            && |rows| == |parsed|
            && forall i, j :: 0 <= i < |tasks| && tasks[i].projectId == projectId && 0 <= j < |rows| ==>
                 tasks[i].position < rows[j].position
  {
    NewRowsPositions(tasks, projectId, parsed, MaxPosition(tasks, projectId));
  }

  /** Every imported row is a waiting task of the project carrying the
      parsed title and description, in document order. */
  lemma NewRowsContents(parsed: seq<MarkdownParser.TaskData>, projectId: nat, m: int)
    ensures forall j :: 0 <= j < |parsed| ==>
              && NewRows(parsed, projectId, m)[j].projectId == projectId
              && NewRows(parsed, projectId, m)[j].title == parsed[j].title
              && NewRows(parsed, projectId, m)[j].description == parsed[j].description
              && NewRows(parsed, projectId, m)[j].status == Waiting == DefaultStatus
  {
  }

  /** Appending rows of one project: that project's tasks are its old tasks
      followed by the new rows (`AppendedTasksOfOther`: every other
      project's tasks are as they were). */
  lemma AppendedTasksOf(tasks: seq<Task>, rows: seq<Task>, projectId: nat)
    requires forall j :: 0 <= j < |rows| ==> rows[j].projectId == projectId
    ensures TasksOf(tasks + rows, projectId) == TasksOf(tasks, projectId) + rows
  {
    FilterConcat(tasks, rows, (t: Task) => t.projectId == projectId);
    FilterAll(rows, (t: Task) => t.projectId == projectId);
  }

  lemma AppendedTasksOfOther(tasks: seq<Task>, rows: seq<Task>, projectId: nat, other: nat)
    requires forall j :: 0 <= j < |rows| ==> rows[j].projectId == projectId
    requires other != projectId
    ensures TasksOf(tasks + rows, other) == TasksOf(tasks, other)
  {
    FilterConcat(tasks, rows, (t: Task) => t.projectId == other);
    FilterAll(rows, (t: Task) => t.projectId == other);
  }

  /** UploadMarkdown: refuse what is not markdown, parse (a parse failure
      changes nothing), then import the document with `ImportDocument`. */
  method UploadMarkdown(db: Store, contentType: string, filename: string, content: seq<string>) returns (r: UploadOutcome)
    requires db.Valid()
    modifies db
    ensures db.Valid()
    ensures r.NotMarkdown? <==> !AcceptsUpload(contentType, filename)
    ensures r.InvalidMarkdown? <==> AcceptsUpload(contentType, filename) && MarkdownParser.Parse(content).Failed?
    ensures r.InvalidMarkdown? ==> r.error == MarkdownParser.Parse(content).error
    ensures !r.Uploaded? ==> unchanged(db)
    ensures r.Uploaded? ==>
              && MarkdownParser.Parse(content).Parsed?
              && Imported(old(db.projects), old(db.tasks), old(db.nextTaskId), MarkdownParser.Parse(content).doc,
                          r.project, r.tasksCreated, db.projects, db.tasks)
  {
    if contentType != "text/markdown" && !IsMarkdownFile(filename) {
      return NotMarkdown;
    }
    var parsed := MarkdownParser.ParseMarkdown(content);
    if parsed.Failed? {
      return InvalidMarkdown(parsed.error);
    }
    var project, tasksCreated := ImportDocument(db, parsed.doc);
    return Uploaded(project, tasksCreated);
  }

  /** What a successful import leaves: the project with the document's
      name, the one that existed (projects unchanged) or a new one added at
      the end; and the old task rows followed by the new rows, keyed from
      the next task key. */
  ghost predicate Imported(projects: seq<Project>, tasks: seq<Task>, nextTaskId: nat, doc: MarkdownParser.ParsedMarkdown,
                           project: Project, tasksCreated: nat, projects': seq<Project>, tasks': seq<Task>)
  {
    && project.name == doc.projectName
    && tasksCreated == |doc.tasks|
    && ((exists i :: 0 <= i < |projects| && projects[i].name == doc.projectName) ==>
          project in projects && projects' == projects)
    && ((forall i :: 0 <= i < |projects| ==> projects[i].name != doc.projectName) ==>
          project.id !in ProjectIds(projects) && projects' == projects + [project])
    && tasks' == tasks + Numbered(NewRows(doc.tasks, project.id, MaxPosition(tasks, project.id)), nextTaskId)
  }

  /** After an import the project's tasks are its old tasks, untouched and
      first, followed by one new row per parsed task; no other project's
      tasks change. */
  lemma ImportedProjectTasks(projects: seq<Project>, tasks: seq<Task>, nextTaskId: nat, doc: MarkdownParser.ParsedMarkdown,
                             project: Project, tasksCreated: nat, projects': seq<Project>, tasks': seq<Task>)
    requires Imported(projects, tasks, nextTaskId, doc, project, tasksCreated, projects', tasks')
    ensures TasksOf(tasks', project.id) ==
              TasksOf(tasks, project.id) + Numbered(NewRows(doc.tasks, project.id, MaxPosition(tasks, project.id)), nextTaskId)
    ensures |TasksOf(tasks', project.id)| == |TasksOf(tasks, project.id)| + tasksCreated
    ensures forall other :: other != project.id ==> TasksOf(tasks', other) == TasksOf(tasks, other)
  {
    var rows := Numbered(NewRows(doc.tasks, project.id, MaxPosition(tasks, project.id)), nextTaskId);
    NewRowsContents(doc.tasks, project.id, MaxPosition(tasks, project.id));
    AppendedTasksOf(tasks, rows, project.id);
    forall other | other != project.id ensures TasksOf(tasks', other) == TasksOf(tasks, other) {
      AppendedTasksOfOther(tasks, rows, project.id, other);
    }
  }

  /** The loop that numbers the new tasks: the i-th gets position
      `maxPosition + 1 + i` (in 64-bit `int`), nothing else about it
      changes. */
  method AssignPositions(taskModels: array<Task>, maxPosition: int)
    modifies taskModels
    ensures forall j :: 0 <= j < taskModels.Length ==> taskModels[j] == old(taskModels[j]).(position := Wrap64(maxPosition + 1 + j))
  {
    for i := 0 to taskModels.Length
      invariant forall j :: 0 <= j < i ==> taskModels[j] == old(taskModels[j]).(position := Wrap64(maxPosition + 1 + j))
      invariant forall j :: i <= j < taskModels.Length ==> taskModels[j] == old(taskModels[j])
    {
      taskModels[i] := taskModels[i].(position := Wrap64(maxPosition + 1 + i));
    }
  }

  /** The import proper: resolve the project, build the rows, offset their
      positions past the project's highest one, insert them. */
  method ImportDocument(db: Store, doc: MarkdownParser.ParsedMarkdown) returns (project: Project, tasksCreated: nat)
    requires db.Valid()
    modifies db
    ensures db.Valid()
    ensures Imported(old(db.projects), old(db.tasks), old(db.nextTaskId), doc, project, tasksCreated, db.projects, db.tasks)
  {
    project := ResolveProject(db, doc.projectName);
    var taskModels := MarkdownParser.ConvertToTaskModels(doc.tasks, project.id);
    var maxPosition := MaxPosition(db.tasks, project.id);
    ghost var rows := NewRows(doc.tasks, project.id, maxPosition);
    AssignPositions(taskModels, maxPosition);
    assert taskModels[..] == rows;
    NewRowsContents(doc.tasks, project.id, maxPosition);
    var created := db.CreateTasks(taskModels[..]);
    tasksCreated := taskModels.Length;
  }

  /** The project an import goes to: the one with the parsed name when it
      exists, else a new one with that name. */
  method ResolveProject(db: Store, name: string) returns (project: Project)
    requires db.Valid()
    modifies db
    ensures db.Valid()
    ensures project.name == name && project.id in ProjectIds(db.projects)
    ensures db.tasks == old(db.tasks) && db.nextTaskId == old(db.nextTaskId)
    ensures (exists i :: 0 <= i < |old(db.projects)| && old(db.projects)[i].name == name) ==>
              project in old(db.projects) && db.projects == old(db.projects)
    ensures (forall i :: 0 <= i < |old(db.projects)| ==> old(db.projects)[i].name != name) ==>
              project.id !in ProjectIds(old(db.projects)) && db.projects == old(db.projects) + [project]
  {
    var found := db.FindByName(name);
    if found.Some? {
      project := found.value;
    } else {
      project := db.CreateProject(name);
    }
  }

  datatype DeleteOutcome = ProjectNotFound | ProjectDeleted

  /** DeleteProject: not found when no project has the key; otherwise the
      project and all its tasks are gone and nothing else changes. */
  method DeleteProject(db: Store, id: nat) returns (r: DeleteOutcome)
    requires db.Valid()
    modifies db
    ensures db.Valid()
    ensures r == ProjectNotFound <==> id !in ProjectIds(old(db.projects))
    ensures r == ProjectNotFound ==> db.projects == old(db.projects) && db.tasks == old(db.tasks)
    ensures (db.projects, db.tasks) == CascadeDelete(old(db.projects), old(db.tasks), id)
  {
    if id !in ProjectIds(db.projects) {
      CascadeDeleteAbsent(db.projects, db.tasks, id);
    }
    var rowsAffected := db.DeleteProject(id);
    if rowsAffected == 0 {
      return ProjectNotFound;
    }
    return ProjectDeleted;
  }

  /** Tasks in board order: positions never decrease. */
  predicate ByPosition(tasks: seq<Task>) {
    forall i, j :: 0 <= i < j < |tasks| ==> tasks[i].position <= tasks[j].position
  }

  /** `t` placed into a list in board order, after the tasks at the same
      position (`InsertSorted` proves that the order is kept). */
  function InsertByPosition(sorted: seq<Task>, t: Task): (r: seq<Task>)
    ensures multiset(r) == multiset(sorted) + multiset{t}
    decreases |sorted|
  {
    if sorted == [] then [t]
    else if t.position < sorted[0].position then [t] + sorted
    else
      assert sorted == [sorted[0]] + sorted[1..];
      [sorted[0]] + InsertByPosition(sorted[1..], t)
  }

  /** Inserting a task no lower than a bound into a list no lower than it
      gives a list no lower than it. */
  lemma {:induction false} InsertBounded(sorted: seq<Task>, t: Task, bound: int)
    requires forall i :: 0 <= i < |sorted| ==> bound <= sorted[i].position
    requires bound <= t.position
    ensures forall i :: 0 <= i < |InsertByPosition(sorted, t)| ==> bound <= InsertByPosition(sorted, t)[i].position
    decreases |sorted|
  {
    if sorted != [] && t.position >= sorted[0].position {
      InsertBounded(sorted[1..], t, bound);
    }
  }

  /** A task no later than every task of a list in board order can go in
      front of it. */
  lemma ConsSorted(t: Task, rest: seq<Task>)
    requires ByPosition(rest)
    requires forall i :: 0 <= i < |rest| ==> t.position <= rest[i].position
    ensures ByPosition([t] + rest)
  {
    var r := [t] + rest;
    forall i, j | 0 <= i < j < |r| ensures r[i].position <= r[j].position {
      assert r[j] == rest[j - 1];
      if i > 0 {
        assert r[i] == rest[i - 1];
      }
    }
  }

  lemma {:induction false} InsertSorted(sorted: seq<Task>, t: Task)
    requires ByPosition(sorted)
    ensures ByPosition(InsertByPosition(sorted, t))
    decreases |sorted|
  {
    if sorted != [] && t.position >= sorted[0].position {
      var rest := InsertByPosition(sorted[1..], t);
      InsertSorted(sorted[1..], t);
      InsertBounded(sorted[1..], t, sorted[0].position);
      ConsSorted(sorted[0], rest);
    }
  }

  /** `ORDER BY position`, ties in table order. */
  function SortByPosition(tasks: seq<Task>): (r: seq<Task>)
    ensures ByPosition(r) && multiset(r) == multiset(tasks)
    decreases |tasks|
  {
    if tasks == [] then []
    else
      var init, last := tasks[..|tasks| - 1], tasks[|tasks| - 1];
      assert tasks == init + [last];
      InsertSorted(SortByPosition(init), last);
      InsertByPosition(SortByPosition(init), last)
  }

  /** GetProjectTasks: exactly the project's tasks, in board order. An
      unknown project has no tasks. */
  method GetProjectTasks(db: Store, projectId: nat) returns (r: seq<Task>)
    ensures ByPosition(r)
    ensures multiset(r) == multiset(TasksOf(db.tasks, projectId))
    ensures forall i :: 0 <= i < |r| ==> r[i].projectId == projectId && r[i] in db.tasks
    ensures forall i :: 0 <= i < |db.tasks| && db.tasks[i].projectId == projectId ==> db.tasks[i] in r
  {
    var selected := TasksOf(db.tasks, projectId);
    r := SortByPosition(selected);
    SameElements(r, selected);
  }
}
