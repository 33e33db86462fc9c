# turzone-kanban import pipeline and stores, in Dafny

This project models the core of the turzone-kanban board:
- the markdown backlog parser (`backend/services/markdown_parser.go`);
- the project and task HTTP handlers, over an abstract store that stands in for the GORM/SQLite database;
- the persisted entities and their table constraints (`backend/models/models.go`);
- the two Svelte stores of the front end (`frontend-svelte/src/lib/stores/projects.js` and `tasks.js`).

The parser is imperative. `MarkdownParser.ParseMarkdown` is the Go loop, with its four loop variables, proved equal to a left fold (`Parse`). The fold is then proved equal to a declarative reference, `Expected`:
- the project name is the last "# " heading;
- each "## " heading opens a task;
- a task's description is its non-blank lines joined by newlines and trimmed;
- the name comes first in the error checks, then the tasks.

The database is a class, `Database.Store`. It holds:
- the project and task tables, each in primary-key order;
- the next keys the auto-increment columns hand out.

`Store.Valid()` is the invariant the model keeps over the tables. Two of its parts are constraints the schema declares (`backend/models/models.go:11,14`):
- unique project names;
- every task belongs to an existing project.

The other two are kept by the handlers and by the model's layout:
- every status is one of "waiting", "in_progress", "testing" and "completed". The column only declares the default "waiting" (`models.go:23`). The import writes "waiting", and the update handler refuses any other value (`task_handler.go:45-58`);
- rows are kept in the order of their auto-increment keys.

Each GORM write and each lookup by key or name is one method on the store. The two other reads are functions of the tables: `Database.MaxPosition` is the `COALESCE(MAX(position), -1)` query, and `Models.TasksOf` followed by `ProjectHandler.SortByPosition` is the ordered task listing. The handlers are methods over the store that keep `Valid()`.

Each front-end store is a class with its collection plus the `loading` and `error` flags. The outcome of the API call is a parameter of each operation.

Modules, one per file:
- `wrappers.dfy`: `Option`.
- `seqs.dfy`: `filter`/`WHERE` and `findIndex`/`First`.
- `strings.dfy`: Go's `strings.TrimSpace` and friends.
- `models.dfy`: entities, constraints, cascade.
- `database.dfy`: the store.
- `markdown_parser.dfy`: the parser.
- `project_handler.dfy`: the project endpoints.
- `task_handler.dfy`: the task endpoints.
- `api_results.dfy`: API outcomes and the error-message fallback.
- `projects_store.dfy`: the front end's project list.
- `tasks_store.dfy`: the front end's tasks.

Two details of the parser are easy to misread:
- **Project name.** A later "# " line overwrites the project name (`markdown_parser.go:42-45`), even after tasks have begun, so the last "# " heading names the project. `MarkdownParser.ParsedProjectName` states this.
- **Description trimming.** A description is `strings.TrimSpace` of its body lines joined by newlines (`markdown_parser.go:51,72`). So the first line's leading white space and the last line's trailing white space go too, not only blank lines (`Description`).

## Model

| member | source | states |
|---|---|---|
| Seqs.FindIndex | frontend-svelte/src/lib/stores/projects.js:37 | the index of the first element passing the test, or -1 exactly when none passes |
| Seqs.Filter | frontend-svelte/src/lib/stores/projects.js:64 | only passing elements are kept, and every passing element is kept |
| Seqs.FilterConcat | frontend-svelte/src/lib/stores/tasks.js:67 | filtering distributes over concatenation (relative order is kept) |
| Seqs.FilterOne | backend/handlers/task_handler.go:76 | filtering out exactly one position yields the sequence without that element |
| Strings.TrimSpaceSpec | backend/services/markdown_parser.go:34 | TrimSpace yields a slice of the input whose dropped prefix and suffix are white space, that neither starts nor ends with white space, and that is empty exactly when the input is all white space |
| Strings.TrimSpacePad | backend/services/markdown_parser.go:34 | appending white space does not change the trimmed string |
| Strings.TrimPrefix | backend/services/markdown_parser.go:43 | the prefix is removed exactly when present |
| Models.TasksOf | backend/handlers/project_handler.go:144 | exactly the tasks of the project |
| Models.CascadeDelete | backend/models/models.go:14 | deleting a project removes it and all its tasks, keeps every other row, and adds none |
| Models.CascadeDeleteConsistent | backend/models/models.go:9-27 | the cascade keeps every table constraint (no task left pointing at the deleted project) |
| Models.CascadeDeleteAbsent | backend/handlers/project_handler.go:131-134 | deleting a key no project has changes neither table |
| Models.WithoutTask | backend/handlers/task_handler.go:76 | deleting a task key keeps exactly the rows with other keys |
| Models.WithoutTaskConsistent | backend/handlers/task_handler.go:76 | deleting a task keeps every table constraint |
| Models.WithoutTaskRemovesOne | backend/handlers/task_handler.go:76 | with keys in order, deleting a present key removes exactly that row and keeps the others in order |
| Models.WithoutAbsentTask | backend/handlers/task_handler.go:82-85 | deleting an absent key changes nothing |
| Database.MaxPosition | backend/handlers/project_handler.go:94-98 | `COALESCE(MAX(position), -1)`: an upper bound attained by some task of the project, or -1 when it has none |
| Database.Numbered | backend/handlers/project_handler.go:106 | a batch insert gives fresh keys, from the next key and below it plus the batch size, strictly increasing in batch order; every other column is the batch's |
| Database.Store.constructor | backend/database/database.go:20 | the migrated database is empty and valid |
| Database.Store.FindByName | backend/handlers/project_handler.go:77 | a project with that exact name, or None when no project has it |
| Database.Store.FindTask | backend/handlers/task_handler.go:26 | the task with that key, or None when no task has it |
| Database.Store.CreateProject | backend/handlers/project_handler.go:81-84 | a fresh key; the project is appended; constraints kept |
| Database.Store.CreateTasks | backend/handlers/project_handler.go:106 | the batch is appended with consecutive fresh keys; constraints kept |
| Database.Store.SaveTask | backend/handlers/task_handler.go:64 | the row with the task's key is replaced in place; constraints kept |
| Database.Store.DeleteProject | backend/handlers/project_handler.go:125 | rows affected is 1 exactly when the key exists; tables become the cascade's result |
| Database.Store.DeleteTask | backend/handlers/task_handler.go:76 | rows affected is 1 exactly when the key exists; the task rows become `WithoutTask` |
| MarkdownParser.ClassifySpec | backend/services/markdown_parser.go:34-62 | a line is a project heading exactly when its trimmed form starts with "# ", and a task heading exactly when it starts with "## "; never both; blank exactly when all white space; heading texts are never empty |
| MarkdownParser.TrailingSpaceIgnored | backend/services/markdown_parser.go:34 | white space after a line does not change how it is read |
| MarkdownParser.FixtureHeading | frontend-svelte/src/lib/utils/testUpload.js:10 | "## Second Task  " opens the task "Second Task" |
| MarkdownParser.ParseMarkdown | backend/services/markdown_parser.go:24-93 | the loop computes the fold `Parse` |
| MarkdownParser.ParseMatchesExpected | backend/services/markdown_parser.go:24-93 | the fold equals the declarative reference `Expected` |
| MarkdownParser.ParseOutcome | backend/services/markdown_parser.go:80-87 | "project name not found" exactly when no line opens a project; "no tasks found" exactly when one does but none opens a task; success exactly when both occur |
| MarkdownParser.ParsedTasks | backend/services/markdown_parser.go:48-74 | one task per "## " line, in order; each has that heading's non-empty text and the trimmed join of the body lines up to the next task heading |
| MarkdownParser.TaskSection | backend/services/markdown_parser.go:57-67 | the k-th section is the k-th heading's text with the body lines up to the next heading |
| MarkdownParser.ParsedProjectName | backend/services/markdown_parser.go:42-45 | the project name is the non-empty text of the last "# " line |
| MarkdownParser.PreambleLineIgnored | backend/services/markdown_parser.go:36-39 | a non-heading line before every task heading does not affect the result |
| MarkdownParser.ConvertToTaskModels | backend/services/markdown_parser.go:96-110 | one waiting row per parsed task, with its title and description, in the project, at position i |
| MarkdownParser.TestDocumentParses | backend/services/markdown_parser_test.go:8-37 | the unit test's document yields "My Project" with three tasks, the first titled "Task 1" |
| ProjectHandler.IsMarkdownFile | backend/handlers/project_handler.go:153-155 | exactly the names ending in ".md" other than ".md" itself |
| ProjectHandler.UploadStatus | backend/handlers/project_handler.go:49-73 | status 200 exactly for a completed upload, 400 for both refusals |
| ProjectHandler.UploadError | backend/handlers/project_handler.go:49-73 | a refusal's message starts with "Invalid markdown format: " exactly when the document failed to parse |
| ProjectHandler.UploadErrorsDistinct | backend/handlers/project_handler.go:49-73 | different refusals get different messages |
| ProjectHandler.Wrap64 | backend/handlers/project_handler.go:102 | Go's 64-bit `int`: the result is in range, equals the input when that is in range, and is the input minus 2^64 just above the range |
| ProjectHandler.NewRowsPositions | backend/handlers/project_handler.go:93-103 | while the last new position fits in 64 bits: new positions lie above every position the project uses, are consecutive and distinct, and are 0..N-1 for a project without tasks |
| ProjectHandler.NewRowsContents | backend/handlers/project_handler.go:91 | each new row is a waiting task of the project with the parsed title and description |
| ProjectHandler.UploadMarkdown | backend/handlers/project_handler.go:40-119 | non-markdown refused; a parse failure reports the parser's error and changes nothing; otherwise the document is imported (`Imported`) |
| ProjectHandler.ImportedProjectTasks | backend/handlers/project_handler.go:75-109 | after an import, the project's tasks are its old tasks, untouched and first, then one new row per parsed task; no other project's tasks change |
| ProjectHandler.NewRowsWrapAround | backend/handlers/project_handler.go:93-103 | as written, a project whose highest position is the largest 64-bit int gets its new task at the smallest one, before its old tasks |
| ProjectHandler.CheckedNewRows | backend/handlers/project_handler.go:100-103 | the corrected rows: refused exactly when some new position `maxPosition + 1 + j` falls outside the 64-bit range; otherwise row j sits at exactly that position, unwrapped, as a waiting task of the project with the parsed title and description |
| ProjectHandler.CheckedNewRowsAbove | backend/handlers/project_handler.go:93-103 | with the check, every new position lies above every old position of the project, for all inputs |
| ProjectHandler.AssignPositions | backend/handlers/project_handler.go:101-103 | the i-th row gets position `maxPosition + 1 + i` in 64-bit arithmetic, and nothing else changes |
| ProjectHandler.ImportDocument | backend/handlers/project_handler.go:75-109 | resolve or create the project, then append the shifted rows; constraints kept |
| ProjectHandler.ResolveProject | backend/handlers/project_handler.go:75-88 | an existing project with the name is reused and nothing changes; otherwise one new project is appended |
| ProjectHandler.DeleteProject | backend/handlers/project_handler.go:122-137 | not found exactly when no project has the key, and then nothing changes; otherwise the cascade |
| ProjectHandler.InsertSorted | backend/handlers/project_handler.go:144 | insertion keeps board order |
| ProjectHandler.SortByPosition | backend/handlers/project_handler.go:144 | `ORDER BY position`: sorted by position and a permutation of its input |
| ProjectHandler.GetProjectTasks | backend/handlers/project_handler.go:140-150 | exactly the project's tasks, as a permutation, in non-decreasing position order |
| TaskHandler.Patched | backend/handlers/task_handler.go:38-61 | refused exactly when the request names an unknown status; the key and project never change; a known status stays known |
| TaskHandler.PatchedFields | backend/handlers/task_handler.go:39-61 | an absent field keeps its value and a present field is taken as given, for every field |
| TaskHandler.PatchedIdempotent | backend/handlers/task_handler.go:38-61 | an empty request changes nothing; applying a request twice equals applying it once |
| TaskHandler.UpdateTask | backend/handlers/task_handler.go:21-70 | not found before invalid body before invalid status; nothing is saved unless the update succeeds; on success the row is replaced in place by the patched task |
| TaskHandler.DeleteTask | backend/handlers/task_handler.go:73-88 | not found exactly when no task has the key, and then nothing changes; otherwise exactly that row is removed |
| ApiResults.ErrorMessage | frontend-svelte/src/lib/stores/projects.js:21 | the server's message unless it is missing or empty, else the fallback; never empty for a non-empty fallback |
| ProjectsStore.Upserted | frontend-svelte/src/lib/stores/projects.js:36-46 | the length grows by one exactly for a new key; projects with other keys keep their index; the uploaded project is in the list |
| ProjectsStore.UpsertedAt | frontend-svelte/src/lib/stores/projects.js:37-41 | a known key is replaced at its first index |
| ProjectsStore.UpsertedNew | frontend-svelte/src/lib/stores/projects.js:43-44 | a new key is appended at the end |
| ProjectsStore.UpsertedIdempotent | frontend-svelte/src/lib/stores/projects.js:36-46 | uploading the same project twice gives the same list as once |
| ProjectsStore.UpsertedDistinct | frontend-svelte/src/lib/stores/projects.js:36-46 | an upload never duplicates a key |
| ProjectsStore.Removed | frontend-svelte/src/lib/stores/projects.js:64 | every project with the key is gone and every other project stays |
| ProjectsStore.RemovedKeepsOrder | frontend-svelte/src/lib/stores/projects.js:64 | removal distributes over concatenation, keeping order; removing an absent key changes nothing |
| ProjectsStore.ProjectsStore.constructor | frontend-svelte/src/lib/stores/projects.js:5-7 | empty list, not loading, no error |
| ProjectsStore.ProjectsStore.FetchAll | frontend-svelte/src/lib/stores/projects.js:14-25 | success replaces the list; failure keeps it and sets the error; loading ends false |
| ProjectsStore.ProjectsStore.UploadProject | frontend-svelte/src/lib/stores/projects.js:27-57 | success upserts the returned project; failure keeps the list and sets "Upload failed: ..." as the fallback error; loading ends false |
| ProjectsStore.ProjectsStore.DeleteProject | frontend-svelte/src/lib/stores/projects.js:59-71 | success removes the key; failure keeps the list and sets the error; loading ends false |
| ProjectsStore.ProjectsStore.ClearError | frontend-svelte/src/lib/stores/projects.js:73 | the error is cleared and nothing else changes |
| TasksStore.Overlay | frontend-svelte/src/lib/stores/tasks.js:44 | for each of the six fields, a field the reply carries is taken and a field it lacks is kept |
| TasksStore.OverlayFullReply | frontend-svelte/src/lib/stores/tasks.js:44 | overlaying a whole task reply yields exactly that task, and is idempotent |
| TasksStore.MergedInto | frontend-svelte/src/lib/stores/tasks.js:42-45 | the length is kept; tasks with other keys are unchanged; without the key the list is unchanged |
| TasksStore.MergeInto | frontend-svelte/src/lib/stores/tasks.js:42-45 | the `forEach` callback computes `MergedInto` |
| TasksStore.MergedIntoFirst | frontend-svelte/src/lib/stores/tasks.js:42-45 | only the first task with the key is overlaid |
| TasksStore.MergedEverywhere | frontend-svelte/src/lib/stores/tasks.js:39-48 | the same project keys; every list keeps its length and every task with another key; a list without the key is unchanged |
| TasksStore.MergedEverywhereFirst | frontend-svelte/src/lib/stores/tasks.js:41-46 | in every list holding the key, only its first occurrence is overlaid |
| TasksStore.MergeEverywhere | frontend-svelte/src/lib/stores/tasks.js:40-47 | the loop over the keys computes `MergedEverywhere` |
| TasksStore.MergedIntoIdempotent | frontend-svelte/src/lib/stores/tasks.js:39-48 | receiving the same whole-task reply twice equals receiving it once, for one list |
| TasksStore.MergedEverywhereIdempotent | frontend-svelte/src/lib/stores/tasks.js:39-48 | the same, for the whole map |
| TasksStore.RemovedFrom | frontend-svelte/src/lib/stores/tasks.js:67 | no task with the key is left; a missing project yields an empty list; every other task of the project is kept and nothing else is added |
| TasksStore.TasksStore.constructor | frontend-svelte/src/lib/stores/tasks.js:5-7 | empty map, not loading, no error |
| TasksStore.TasksStore.FetchByProject | frontend-svelte/src/lib/stores/tasks.js:14-31 | success sets that project's list and leaves other keys; failure keeps the map and sets the error; loading ends false |
| TasksStore.TasksStore.UpdateTask | frontend-svelte/src/lib/stores/tasks.js:33-58 | success merges the reply into every list; failure keeps the map and sets the error; loading ends false |
| TasksStore.TasksStore.DeleteTask | frontend-svelte/src/lib/stores/tasks.js:60-76 | success filters only the given project's list, creating it empty if missing; failure keeps the map and sets the error; loading ends false |
| TasksStore.TasksStore.ClearError | frontend-svelte/src/lib/stores/tasks.js:78 | the error is cleared and nothing else changes |
| TasksStore.TasksStore.ClearTasks | frontend-svelte/src/lib/stores/tasks.js:79 | the map is emptied and nothing else changes |

## Findings

| source | as written | input that shows it | evidently intended | confidence | as-written member | corrected member |
|---|---|---|---|---|---|---|
| backend/handlers/project_handler.go:94-103 | new positions are `maxPosition + 1 + i` in Go's 64-bit `int`, with no bound check | a task's position is set to 9223372036854775807 through the update endpoint (`task_handler.go:59-61` accepts any `int`); a document with that project's name is then uploaded, and its first task gets position -9223372036854775808 | imported tasks go after the project's existing tasks | not executed | ProjectHandler.NewRowsWrapAround | ProjectHandler.CheckedNewRows |

The handler model (`ImportDocument`, `AssignPositions`, `NewRows`) keeps the code's wrapping arithmetic. `CheckedNewRows` is the correction: it refuses the import instead of wrapping. `CheckedNewRowsAbove` proves that with the check every new position lies above the old ones.

## Left out

- ProjectHandler.NewRowsPositions: it holds only while `maxPosition + |tasks|` fits in a 64-bit `int`. Past that the code wraps, as recorded under Findings.
- Task positions are unbounded integers elsewhere in the model. The JSON binding's refusal of a number outside 64 bits in an update request (`task_handler.go:33`) is not modelled.

- The HTTP layer is not modelled:
  - gin routing, multipart reading, JSON binding and serialisation, CORS and static files;
  - "No file uploaded" (`project_handler.go:42-46`) and the read failures (`:55-66`);
  - GetProjects and GetProject.
  The handlers receive the already-read content type, file name and document lines.
- A document is given as its sequence of lines. `bufio.Scanner`'s line splitting (including stripping a trailing "\r") and its 64 KiB token limit (`scanner.Err()`, `markdown_parser.go:76-78`) are not modelled.
- Strings are sequences of Unicode code points. Invalid UTF-8 is not modelled. So `isMarkdownFile` is modelled on characters, while Go measures bytes; for names ending in the ASCII ".md" the two agree.
- The persistence failures (the 500 responses) are not modelled: database errors on create, insert, save or delete, and the ignored error of the max-position query.
- `ImportDocument` and `UploadMarkdown` do not model the reload of the project with its tasks for the response (`project_handler.go:112`). The outcome carries the project row and the count.
- Concurrency is not modelled. The handlers run as single atomic steps, so two concurrent imports racing between reading the maximum position and inserting cannot be expressed. The source has no transaction there.
- Keys are modelled as counters handed out by the store. Timestamps (`CreatedAt`, `UpdatedAt`) are not modelled.
- `Models.CascadeDelete` follows the declared `OnDelete:CASCADE` constraint. SQLite enforces it only when the connection enables foreign keys, and `backend/database/database.go` does not set that pragma. That is not part of this model.
- `ProjectHandler.SortByPosition`: SQL does not fix the order of tasks with equal positions. The model picks one order (table order, stable), and the contracts state only sortedness and the permutation.
- Front end:
  - API calls are parameters;
  - `console.log` calls are left out;
  - a thrown or rethrown error is a `None`/`false` result;
  - the intermediate `loading == true` state is not observable after a call.
- The front-end `updateTask` assigns into the existing arrays of a shallow copy, so the previous map value is mutated too. Values in the model do not alias, so this sharing is not captured.
- `ProjectsStore.ProjectsStore.UploadProject`: the in-place `projects[existingIndex] = ...` likewise mutates the previous array. The model builds a new sequence.
- Object keys in `tasks.js` are strings; the model uses the numeric project key. Strict equality `t.id === taskId` is modelled as equality of naturals.
