/**
 * The markdown backlog parser (backend/services/markdown_parser.go).
 *
 * The document arrives as its sequence of lines. `ParseMarkdown` is the
 * scanning loop of the Go code. `Parse` is the same scan written as a fold
 * over the lines, each read once by `Classify` (`Scan`), followed by the
 * final validation (`Finish`). `Expected` describes the result
 * declaratively, from where the heading lines are; `ParseMatchesExpected`
 * proves that the fold computes it.
 */
module MarkdownParser {
  import opened Wrappers
  import opened Strings
  import Models

  datatype TaskData = TaskData(title: string, description: string)

  datatype ParsedMarkdown = ParsedMarkdown(projectName: string, tasks: seq<TaskData>)

  datatype ParseError = ProjectNameNotFound | NoTasksFound

  datatype ParseResult = Parsed(doc: ParsedMarkdown) | Failed(error: ParseError)

  function ErrorMessage(e: ParseError): string {
    match e
    case ProjectNameNotFound => "project name not found (missing # Header)"
    case NoTasksFound => "no tasks found (missing ## Headers)"
  }

  const ProjectMarker := "# "
  const TaskMarker := "## "

  // ---------------------------------------------------------------------
  // Line classification
  // ---------------------------------------------------------------------

  /** How the parser reads one line, tried in the code's order: blank once
      trimmed, "# " heading, "## " heading, anything else. A heading carries
      its trimmed text after the marker. */
  datatype LineKind = Blank | ProjectHeading(name: string) | TaskHeading(title: string) | Body

  /** A line of the document together with how the parser reads it. */
  datatype Line = Line(kind: LineKind, text: string)

  /** The text of a heading line: what follows the marker in the trimmed
      line, trimmed again. */
  function HeadingText(line: string, marker: string): string {
    TrimSpace(TrimPrefix(TrimSpace(line), marker))
  }

  /** The line, once trimmed, starts with "# ". */
  predicate OpensProject(line: string) {
    HasPrefix(TrimSpace(line), ProjectMarker)
  }

  /** The line, once trimmed, starts with "## ". */
  predicate OpensTask(line: string) {
    HasPrefix(TrimSpace(line), TaskMarker)
  }

  function Classify(line: string): LineKind {
    if TrimSpace(line) == "" then Blank
    else if OpensProject(line) then ProjectHeading(HeadingText(line, ProjectMarker))
    else if OpensTask(line) then TaskHeading(HeadingText(line, TaskMarker))
    else Body
  }

  function Classified(lines: seq<string>): (ls: seq<Line>)
    ensures |ls| == |lines|
  {
    seq(|lines|, i requires 0 <= i < |lines| => Line(Classify(lines[i]), lines[i]))
  }

  /** A line is a project heading exactly when it opens a project, a task
      heading exactly when it opens a task (no line does both), and blank
      exactly when it is all white space. A heading's text is never empty:
      the trimmed line ends in a non-space, so it is longer than its marker,
      and what follows the marker keeps that last non-space character. */
  lemma ClassifySpec(line: string)
    ensures Classify(line).ProjectHeading? <==> OpensProject(line)
    ensures Classify(line).TaskHeading? <==> OpensTask(line)
    ensures !(OpensProject(line) && OpensTask(line))
    ensures Classify(line).Blank? <==> AllSpace(line)
    ensures Classify(line).ProjectHeading? ==> Classify(line).name == HeadingText(line, ProjectMarker) != ""
    ensures Classify(line).TaskHeading? ==> Classify(line).title == HeadingText(line, TaskMarker) != ""
  {
    var t := TrimSpace(line);
    TrimSpaceSpec(line);
    if t != "" && HasPrefix(t, ProjectMarker) {
      HeadingTextNonEmpty(line, ProjectMarker);
    }
    if t != "" && HasPrefix(t, TaskMarker) {
      assert t[1] == '#';
      HeadingTextNonEmpty(line, TaskMarker);
    }
  }

  /** The trimmed line ends in a non-space and the marker ends in a space,
      so the line is longer than its marker and the heading text keeps
      that last character. */
  lemma HeadingTextNonEmpty(line: string, marker: string)
    requires marker == ProjectMarker || marker == TaskMarker
    requires TrimSpace(line) != "" && HasPrefix(TrimSpace(line), marker)
    ensures HeadingText(line, marker) != ""
  {
    var t := TrimSpace(line);
    TrimSpaceSpec(line);
    assert IsSpace(t[|marker| - 1]);
    var rest := TrimPrefix(t, marker);
    assert rest == t[|marker|..];
    assert rest[|rest| - 1] == t[|t| - 1];
    TrimSpaceNonEmpty(rest, |rest| - 1);
  }

  // ---------------------------------------------------------------------
  // The scan as a fold
  // ---------------------------------------------------------------------

  /** The four variables of the Go loop: `projectName`, `tasks`,
      `currentTask` (None for the nil pointer) and `descriptionLines`. */
  datatype Scanner = Scanner(
    projectName: string,
    tasks: seq<TaskData>,
    currentTask: Option<TaskData>,
    descriptionLines: seq<string>)

  const Start := Scanner("", [], None, [])

  /** A task's description: its collected lines joined by newlines, trimmed. */
  function Description(lines: seq<string>): string {
    TrimSpace(Join(lines, "\n"))
  }

  /** The tasks once the open task, if any, is saved with its description. */
  function Closed(s: Scanner): seq<TaskData> {
    if s.currentTask.Some? then
      s.tasks + [s.currentTask.value.(description := Description(s.descriptionLines))]
    else s.tasks
  }

  /** One iteration of the loop body: a "# " line (re)sets the project name;
      a "## " line saves the open task and opens a new one; a body line is
      buffered, untrimmed, while a task is open; everything else changes
      nothing. */
  function Advance(s: Scanner, line: Line): Scanner {
    match line.kind
    case Blank => s
    case ProjectHeading(name) => s.(projectName := name)
    case TaskHeading(title) =>
      var saved := if s.currentTask.Some? then s.(tasks := Closed(s), descriptionLines := []) else s;
      saved.(currentTask := Some(TaskData(title, "")))
    case Body =>
      if s.currentTask.Some? then s.(descriptionLines := s.descriptionLines + [line.text]) else s
  }

  /** The state after the classified lines `ls`, starting from `s`. */
  function Fold(s: Scanner, ls: seq<Line>): Scanner
    decreases |ls|
  {
    if ls == [] then s else Advance(Fold(s, ls[..|ls| - 1]), ls[|ls| - 1])
  }

  function Scan(s: Scanner, lines: seq<string>): Scanner {
    Fold(s, Classified(lines))
  }

  /** What follows the loop: save the last task, then validate. */
  function Finish(s: Scanner): ParseResult {
    var tasks := Closed(s);
    if s.projectName == "" then Failed(ProjectNameNotFound)
    else if |tasks| == 0 then Failed(NoTasksFound)
    else Parsed(ParsedMarkdown(s.projectName, tasks))
  }

  function Parse(lines: seq<string>): ParseResult {
    Finish(Scan(Start, lines))
  }

  // ---------------------------------------------------------------------
  // The loop
  // ---------------------------------------------------------------------

  /** ParseMarkdown: one forward pass over the lines. */
  method ParseMarkdown(lines: seq<string>) returns (r: ParseResult)
    ensures r == Parse(lines)
  {
    var projectName := "";
    var tasks: seq<TaskData> := [];
    var currentTask: Option<TaskData> := None;
    var descriptionLines: seq<string> := [];
    var i := 0;
    while i < |lines|
      invariant i <= |lines|
      invariant Scanner(projectName, tasks, currentTask, descriptionLines) == Scan(Start, lines[..i])
    {
      assert Classified(lines[..i + 1])[..i] == Classified(lines[..i]);
      var line := lines[i];
      i := i + 1;
      var trimmedLine := TrimSpace(line);
      if trimmedLine == "" && projectName == "" {
        continue;
      }
      if HasPrefix(trimmedLine, ProjectMarker) {
        projectName := TrimSpace(TrimPrefix(trimmedLine, ProjectMarker));
        continue;
      }
      if HasPrefix(trimmedLine, TaskMarker) {
        if currentTask.Some? {
          var finished := currentTask.value.(description := TrimSpace(Join(descriptionLines, "\n")));
          tasks := tasks + [finished];
          descriptionLines := [];
        }
        var taskTitle := TrimSpace(TrimPrefix(trimmedLine, TaskMarker));
        currentTask := Some(TaskData(taskTitle, ""));
        continue;
      }
      if currentTask.Some? && trimmedLine != "" {
        descriptionLines := descriptionLines + [line];
      }
    }
    assert lines[..i] == lines;
    if currentTask.Some? {
      var finished := currentTask.value.(description := TrimSpace(Join(descriptionLines, "\n")));
      tasks := tasks + [finished];
    }
    if projectName == "" {
      return Failed(ProjectNameNotFound);
    }
    if |tasks| == 0 {
      return Failed(NoTasksFound);
    }
    return Parsed(ParsedMarkdown(projectName, tasks));
  }

  // ---------------------------------------------------------------------
  // Task rows
  // ---------------------------------------------------------------------

  /** ConvertToTaskModels: one unsaved task row per parsed task, in order,
      owned by `projectId`, status "waiting", position its index. */
  method ConvertToTaskModels(tasks: seq<TaskData>, projectId: nat) returns (result: array<Models.Task>)
    ensures fresh(result) && result.Length == |tasks|
    ensures forall i :: 0 <= i < |tasks| ==>
              result[i] == Models.Task(0, projectId, tasks[i].title, tasks[i].description, Models.Waiting, i)
  {
    result := new Models.Task[|tasks|](i => Models.Task(0, 0, "", "", "", 0));
    for i := 0 to |tasks|
      invariant forall j :: 0 <= j < i ==>
                  result[j] == Models.Task(0, projectId, tasks[j].title, tasks[j].description, Models.Waiting, j)
    {
      var taskData := tasks[i];
      result[i] := Models.Task(0, projectId, taskData.title, taskData.description, Models.Waiting, i);
    }
  }

  // ---------------------------------------------------------------------
  // A declarative description of the result
  // ---------------------------------------------------------------------

  /** Strictly increasing positions inside a document of `n` lines. */
  predicate Positions(hs: seq<nat>, n: nat) {
    (forall j :: 0 <= j < |hs| ==> hs[j] < n) && (forall j, k :: 0 <= j < k < |hs| ==> hs[j] < hs[k])
  }

  /** Heading levels: 1 for "# ", 2 for "## ". */
  predicate IsHeading(line: Line, level: nat) {
    if level == 1 then line.kind.ProjectHeading? else line.kind.TaskHeading?
  }

  /** The positions of the headings of one level (`HeadingsOrdered` and
      `HeadingsExact` state that they are in document order and which lines
      they are). */
  function Headings(ls: seq<Line>, level: nat): seq<nat>
    decreases |ls|
  {
    if ls == [] then []
    else Headings(ls[..|ls| - 1], level) + (if IsHeading(ls[|ls| - 1], level) then [|ls| - 1] else [])
  }

  /** The text of the body lines among lines lo..hi-1, in order. */
  function BodyLines(ls: seq<Line>, lo: nat, hi: nat): seq<string>
    requires lo <= hi <= |ls|
    decreases hi
  {
    if lo == hi then []
    else BodyLines(ls, lo, hi - 1) + (if ls[hi - 1].kind.Body? then [ls[hi - 1].text] else [])
  }

  /** Where section k ends: at the next task heading, else at the end. */
  function SectionEnd(n: nat, hs: seq<nat>, k: nat): nat
    requires k < |hs|
  {
    if k + 1 < |hs| then hs[k + 1] else n
  }

  /** The title of a task heading and the body lines up to the next task
      heading or the end of the document. */
  datatype Section = Section(title: string, body: seq<string>)

  /** The section opened by the k-th task heading, at line hs[k]. (A
      position that is not a task heading followed by its block, which
      `Headings` never yields, gives an empty section.) */
  function SectionAt(ls: seq<Line>, hs: seq<nat>, k: nat): Section
    requires k < |hs|
  {
    var at, end := hs[k], SectionEnd(|ls|, hs, k);
    if at < end <= |ls| && ls[at].kind.TaskHeading? then Section(ls[at].kind.title, BodyLines(ls, at + 1, end))
    else Section("", [])
  }

  /** The sections of the first n task headings. */
  function Sections(ls: seq<Line>, hs: seq<nat>, n: nat): seq<Section>
    requires n <= |hs|
  {
    if n == 0 then [] else Sections(ls, hs, n - 1) + [SectionAt(ls, hs, n - 1)]
  }

  function ToTask(section: Section): TaskData {
    TaskData(section.title, Description(section.body))
  }

  function ToTasks(sections: seq<Section>): seq<TaskData>
    decreases |sections|
  {
    if sections == [] then []
    else ToTasks(sections[..|sections| - 1]) + [ToTask(sections[|sections| - 1])]
  }

  /** The name of the last project heading, or "" when there is none. */
  function LastProjectName(ls: seq<Line>): string
    decreases |ls|
  {
    if ls == [] then ""
    else if ls[|ls| - 1].kind.ProjectHeading? then ls[|ls| - 1].kind.name
    else LastProjectName(ls[..|ls| - 1])
  }

  /** The result the parser should give for the classified lines `ls`: a
      missing project heading is reported first, then a missing task
      heading; otherwise the last project heading names the project and
      every task heading gives one task, in document order, titled by its
      heading and described by the body lines of its section. */
  function ExpectedOf(ls: seq<Line>): ParseResult {
    var hs := Headings(ls, 2);
    if Headings(ls, 1) == [] then Failed(ProjectNameNotFound)
    else if hs == [] then Failed(NoTasksFound)
    else Parsed(ParsedMarkdown(LastProjectName(ls), ToTasks(Sections(ls, hs, |hs|))))
  }

  function Expected(lines: seq<string>): ParseResult {
    ExpectedOf(Classified(lines))
  }

  // ---------------------------------------------------------------------
  // Lemmas
  // ---------------------------------------------------------------------

  /** `Headings` lists exactly the headings of the level asked for. */
  lemma {:induction false} HeadingsExact(ls: seq<Line>, level: nat)
    ensures Positions(Headings(ls, level), |ls|)
    ensures forall j :: 0 <= j < |Headings(ls, level)| ==> IsHeading(ls[Headings(ls, level)[j]], level)
    ensures forall i :: 0 <= i < |ls| && IsHeading(ls[i], level) ==> i in Headings(ls, level)
    decreases |ls|
  {
    if ls != [] {
      var init := ls[..|ls| - 1];
      HeadingsExact(init, level);
      HeadingsOrdered(ls, level);
      assert forall i :: 0 <= i < |init| ==> init[i] == ls[i];
    }
  }

  lemma HeadingsAppend(ls: seq<Line>, line: Line, level: nat)
    ensures Headings(ls + [line], level) == Headings(ls, level) + (if IsHeading(line, level) then [|ls|] else [])
  {
    assert (ls + [line])[..|ls|] == ls;
  }

  /** The headings are listed in document order. */
  lemma {:induction false} HeadingsOrdered(ls: seq<Line>, level: nat)
    ensures Positions(Headings(ls, level), |ls|)
    decreases |ls|
  {
    if ls != [] {
      HeadingsOrdered(ls[..|ls| - 1], level);
    }
  }

  /** The body lines of a block depend only on the lines of the block. */
  lemma {:induction false} BodyLinesFrame(ls: seq<Line>, ls': seq<Line>, lo: nat, hi: nat)
    requires lo <= hi <= |ls| <= |ls'| && ls == ls'[..|ls|]
    ensures BodyLines(ls, lo, hi) == BodyLines(ls', lo, hi)
    decreases hi
  {
    if lo < hi {
      BodyLinesFrame(ls, ls', lo, hi - 1);
      assert ls[hi - 1] == ls'[hi - 1];
    }
  }

  lemma FoldAppend(s: Scanner, ls: seq<Line>, line: Line)
    ensures Fold(s, ls + [line]) == Advance(Fold(s, ls), line)
  {
    assert (ls + [line])[..|ls|] == ls;
  }

  /** A section that ends inside a prefix of the document is the same
      whether computed on the prefix or on the whole document. */
  lemma SectionAtFrame(ls: seq<Line>, hs: seq<nat>, ls': seq<Line>, hs': seq<nat>, k: nat)
    requires k < |hs| <= |hs'| && hs == hs'[..|hs|]
    requires |ls| <= |ls'| && ls == ls'[..|ls|]
    requires SectionEnd(|ls|, hs, k) == SectionEnd(|ls'|, hs', k) <= |ls|
    ensures SectionAt(ls, hs, k) == SectionAt(ls', hs', k)
  {
    var end := SectionEnd(|ls|, hs, k);
    assert hs[k] == hs'[k];
    if hs[k] < end {
      assert ls[hs[k]] == ls'[hs[k]];
      BodyLinesFrame(ls, ls', hs[k] + 1, end);
    }
  }

  /** The sections that lie inside a prefix of the document are the same
      whether computed on the prefix or on the whole document. */
  lemma {:induction false} SectionsFrame(ls: seq<Line>, hs: seq<nat>, ls': seq<Line>, hs': seq<nat>, n: nat)
    requires Positions(hs, |ls|)
    requires n < |hs| <= |hs'| && hs == hs'[..|hs|]
    requires |ls| <= |ls'| && ls == ls'[..|ls|]
    ensures Sections(ls, hs, n) == Sections(ls', hs', n)
  {
    if n > 0 {
      SectionsFrame(ls, hs, ls', hs', n - 1);
      assert hs[n] == hs'[n];
      SectionAtFrame(ls, hs, ls', hs', n - 1);
    }
  }

  lemma ToTasksAppend(sections: seq<Section>, section: Section)
    ensures ToTasks(sections + [section]) == ToTasks(sections) + [ToTask(section)]
  {
    assert (sections + [section])[..|sections|] == sections;
  }

  /** What the fold holds about the tasks after a prefix of the document
      whose task headings stand at `hs`: with none seen nothing is open;
      otherwise the last heading's task is open, its description buffer
      holds the body lines after it, and every earlier section has been
      saved as a task. */
  predicate TasksInvariant(ls: seq<Line>, hs: seq<nat>, s: Scanner) {
    if hs == [] then
      s.currentTask.None? && s.tasks == [] && s.descriptionLines == []
    else
      var last := hs[|hs| - 1];
      && last < |ls|
      && ls[last].kind.TaskHeading?
      && s.currentTask == Some(TaskData(ls[last].kind.title, ""))
      && s.descriptionLines == BodyLines(ls, last + 1, |ls|)
      && s.tasks == ToTasks(Sections(ls, hs, |hs| - 1))
  }

  /** Saving the open task completes the task list of the sections seen. */
  lemma ClosedIsSections(ls: seq<Line>, hs: seq<nat>, s: Scanner)
    requires hs != [] && TasksInvariant(ls, hs, s)
    ensures Closed(s) == ToTasks(Sections(ls, hs, |hs|))
  {
    var i := |hs| - 1;
    assert SectionAt(ls, hs, i) == Section(ls[hs[i]].kind.title, s.descriptionLines);
    ToTasksAppend(Sections(ls, hs, i), SectionAt(ls, hs, i));
  }

  lemma TasksAfterTaskHeading(ls: seq<Line>, hs: seq<nat>, s: Scanner, line: Line)
    requires Positions(hs, |ls|) && TasksInvariant(ls, hs, s)
    requires line.kind.TaskHeading?
    ensures TasksInvariant(ls + [line], hs + [|ls|], Advance(s, line))
  {
    var ls', hs' := ls + [line], hs + [|ls|];
    assert ls'[|ls|] == line && ls'[|ls| + 1..] == [];
    if hs != [] {
      var i := |hs| - 1;
      assert ls'[..|ls|] == ls && hs'[..|hs|] == hs && hs'[|hs|] == |ls|;
      ClosedIsSections(ls, hs, s);
      SectionsFrame(ls, hs, ls', hs', i);
      SectionAtFrame(ls, hs, ls', hs', i);
      assert Sections(ls', hs', |hs|) == Sections(ls, hs, |hs|);
    }
  }

  lemma TasksAfterOtherLine(ls: seq<Line>, hs: seq<nat>, s: Scanner, line: Line)
    requires Positions(hs, |ls|) && TasksInvariant(ls, hs, s)
    requires !line.kind.TaskHeading?
    ensures TasksInvariant(ls + [line], hs, Advance(s, line))
  {
    var ls' := ls + [line];
    if hs != [] {
      var i := |hs| - 1;
      var last := hs[i];
      assert ls'[..|ls|] == ls && hs[..|hs|] == hs;
      assert ls'[last] == ls[last] && ls'[|ls|] == line;
      BodyLinesFrame(ls, ls', last + 1, |ls|);
      assert BodyLines(ls', last + 1, |ls'|) == s.descriptionLines + (if line.kind.Body? then [line.text] else []);
      SectionsFrame(ls, hs, ls', hs, i);
    }
  }

  /** The project name after the fold is that of the last project heading. */
  lemma {:induction false} FoldProjectName(ls: seq<Line>)
    ensures Fold(Start, ls).projectName == LastProjectName(ls)
    decreases |ls|
  {
    if ls != [] {
      FoldProjectName(ls[..|ls| - 1]);
    }
  }

  /** One more line keeps `TasksInvariant` for the task headings seen. */
  lemma TasksStep(ls: seq<Line>, s: Scanner, line: Line)
    requires TasksInvariant(ls, Headings(ls, 2), s)
    ensures TasksInvariant(ls + [line], Headings(ls + [line], 2), Advance(s, line))
  {
    var hs := Headings(ls, 2);
    HeadingsAppend(ls, line, 2);
    HeadingsOrdered(ls, 2);
    if line.kind.TaskHeading? {
      TasksAfterTaskHeading(ls, hs, s, line);
    } else {
      assert Headings(ls + [line], 2) == hs + [] == hs;
      TasksAfterOtherLine(ls, hs, s, line);
    }
  }

  /** The fold keeps `TasksInvariant` for the task headings seen so far. */
  lemma {:induction false} FoldTasks(ls: seq<Line>)
    ensures TasksInvariant(ls, Headings(ls, 2), Fold(Start, ls))
    decreases |ls|
  {
    if ls != [] {
      var init, line := ls[..|ls| - 1], ls[|ls| - 1];
      assert init + [line] == ls;
      FoldTasks(init);
      FoldAppend(Start, init, line);
      TasksStep(init, Fold(Start, init), line);
    }
  }

  /** With non-empty heading names, the last project name is empty exactly
      when there is no project heading. */
  lemma {:induction false} LastProjectNameEmpty(ls: seq<Line>)
    requires forall i :: 0 <= i < |ls| && ls[i].kind.ProjectHeading? ==> ls[i].kind.name != ""
    ensures LastProjectName(ls) == "" <==> Headings(ls, 1) == []
    decreases |ls|
  {
    if ls != [] {
      LastProjectNameEmpty(ls[..|ls| - 1]);
    }
  }

  /** For classified lines in which every project heading has a non-empty
      name, the fold followed by the validation computes the declarative
      result. */
  lemma {:induction false} FoldMatchesExpected(ls: seq<Line>)
    requires forall i :: 0 <= i < |ls| && ls[i].kind.ProjectHeading? ==> ls[i].kind.name != ""
    ensures Finish(Fold(Start, ls)) == ExpectedOf(ls)
  {
    var s, hs := Fold(Start, ls), Headings(ls, 2);
    FoldProjectName(ls);
    FoldTasks(ls);
    LastProjectNameEmpty(ls);
    if hs == [] {
      assert Closed(s) == [];
    } else {
      ClosedIsSections(ls, hs, s);
      assert Closed(s) == ToTasks(Sections(ls, hs, |hs| - 1)) + [ToTask(SectionAt(ls, hs, |hs| - 1))];
    }
  }

  /** The parser computes exactly the declarative result. */
  lemma ParseMatchesExpected(lines: seq<string>)
    ensures Parse(lines) == Expected(lines)
  {
    var ls := Classified(lines);
    forall i | 0 <= i < |ls| && ls[i].kind.ProjectHeading? ensures ls[i].kind.name != "" {
      ClassifySpec(lines[i]);
    }
    FoldMatchesExpected(ls);
  }

  // ---------------------------------------------------------------------
  // What the parser promises
  // ---------------------------------------------------------------------

  lemma {:induction false} ToTasksSpec(sections: seq<Section>)
    ensures |ToTasks(sections)| == |sections|
    ensures forall k :: 0 <= k < |sections| ==> ToTasks(sections)[k] == ToTask(sections[k])
    decreases |sections|
  {
    if sections != [] {
      ToTasksSpec(sections[..|sections| - 1]);
    }
  }

  lemma {:induction false} SectionsSpec(ls: seq<Line>, hs: seq<nat>, n: nat)
    requires n <= |hs|
    ensures |Sections(ls, hs, n)| == n
    ensures forall k :: 0 <= k < n ==> Sections(ls, hs, n)[k] == SectionAt(ls, hs, k)
  {
    if n > 0 {
      SectionsSpec(ls, hs, n - 1);
    }
  }

  /** There are headings of a level exactly when some line is one. */
  lemma HeadingsEmpty(ls: seq<Line>, level: nat)
    ensures Headings(ls, level) == [] <==> forall i :: 0 <= i < |ls| ==> !IsHeading(ls[i], level)
  {
    HeadingsExact(ls, level);
  }

  /** The lines that are headings after classification are the lines that
      open a project or a task, and their names are the heading texts. */
  lemma ClassifiedHeadings(lines: seq<string>)
    ensures forall i :: 0 <= i < |lines| ==> (IsHeading(Classified(lines)[i], 1) <==> OpensProject(lines[i]))
    ensures forall i :: 0 <= i < |lines| ==> (IsHeading(Classified(lines)[i], 2) <==> OpensTask(lines[i]))
    ensures forall i :: 0 <= i < |lines| && OpensProject(lines[i]) ==>
              Classified(lines)[i].kind == ProjectHeading(HeadingText(lines[i], ProjectMarker)) && HeadingText(lines[i], ProjectMarker) != ""
    ensures forall i :: 0 <= i < |lines| && OpensTask(lines[i]) ==>
              Classified(lines)[i].kind == TaskHeading(HeadingText(lines[i], TaskMarker)) && HeadingText(lines[i], TaskMarker) != ""
  {
    forall i | 0 <= i < |lines| {
      ClassifySpec(lines[i]);
    }
  }

  /** The task headings of a document: the lines that open a task, in
      document order. */
  function TaskLines(lines: seq<string>): (hs: seq<nat>)
    ensures Positions(hs, |lines|)
  {
    HeadingsOrdered(Classified(lines), 2);
    Headings(Classified(lines), 2)
  }

  lemma TaskLinesExact(lines: seq<string>)
    ensures forall j :: 0 <= j < |TaskLines(lines)| ==> OpensTask(lines[TaskLines(lines)[j]])
    ensures forall i :: 0 <= i < |lines| && OpensTask(lines[i]) ==> i in TaskLines(lines)
  {
    HeadingsExact(Classified(lines), 2);
    ClassifiedHeadings(lines);
  }

  /** The declarative result fails exactly as `Finish` describes. */
  lemma ExpectedOutcome(ls: seq<Line>)
    ensures ExpectedOf(ls) == Failed(ProjectNameNotFound) <==> forall i :: 0 <= i < |ls| ==> !IsHeading(ls[i], 1)
    ensures ExpectedOf(ls) == Failed(NoTasksFound) <==>
              (exists i :: 0 <= i < |ls| && IsHeading(ls[i], 1)) && forall i :: 0 <= i < |ls| ==> !IsHeading(ls[i], 2)
  {
    HeadingsEmpty(ls, 1);
    HeadingsEmpty(ls, 2);
  }

  /** Which error, if any: a document without a line opening a project fails
      with ProjectNameNotFound, whether or not it has tasks; one with a
      project but without a line opening a task fails with NoTasksFound;
      every other document parses. */
  lemma ParseOutcome(lines: seq<string>)
    ensures Parse(lines) == Failed(ProjectNameNotFound) <==> forall i :: 0 <= i < |lines| ==> !OpensProject(lines[i])
    ensures Parse(lines) == Failed(NoTasksFound) <==>
              (exists i :: 0 <= i < |lines| && OpensProject(lines[i])) && forall i :: 0 <= i < |lines| ==> !OpensTask(lines[i])
    ensures Parse(lines).Parsed? <==>
              (exists i :: 0 <= i < |lines| && OpensProject(lines[i])) && (exists i :: 0 <= i < |lines| && OpensTask(lines[i]))
  {
    var ls := Classified(lines);
    ParseMatchesExpected(lines);
    ExpectedOutcome(ls);
    ClassifiedHeadings(lines);
  }

  /** The tasks of the declarative result, one per task heading. */
  lemma ExpectedTasks(ls: seq<Line>)
    requires ExpectedOf(ls).Parsed?
    ensures var tasks, hs := ExpectedOf(ls).doc.tasks, Headings(ls, 2);
      && |tasks| == |hs|
      && forall k :: 0 <= k < |hs| ==> tasks[k] == ToTask(SectionAt(ls, hs, k))
  {
    var hs := Headings(ls, 2);
    SectionsSpec(ls, hs, |hs|);
    ToTasksSpec(Sections(ls, hs, |hs|));
  }

  /** On success there is one task per line opening a task, in document
      order: its title is that heading's text, never empty, and its
      description is `Description` of the body lines (neither blank nor
      headings, kept untrimmed) that follow it up to the next task heading
      or the end of the document. */
  lemma ParsedTasks(lines: seq<string>)
    requires Parse(lines).Parsed?
    ensures var tasks, hs := Parse(lines).doc.tasks, TaskLines(lines);
      && |tasks| == |hs|
      && forall k :: 0 <= k < |hs| ==>
           && tasks[k].title == HeadingText(lines[hs[k]], TaskMarker) != ""
           && tasks[k].description == Description(BodyLines(Classified(lines), hs[k] + 1, SectionEnd(|lines|, hs, k)))
  {
    var ls, hs, tasks := Classified(lines), TaskLines(lines), Parse(lines).doc.tasks;
    ParsedSections(lines);
    forall k | 0 <= k < |hs|
      ensures tasks[k].title == HeadingText(lines[hs[k]], TaskMarker) != ""
      ensures tasks[k].description == Description(BodyLines(ls, hs[k] + 1, SectionEnd(|lines|, hs, k)))
    {
      TaskSection(lines, k);
    }
  }

  lemma ParsedSections(lines: seq<string>)
    requires Parse(lines).Parsed?
    ensures var tasks, hs := Parse(lines).doc.tasks, TaskLines(lines);
      && |tasks| == |hs|
      && forall k :: 0 <= k < |hs| ==> tasks[k] == ToTask(SectionAt(Classified(lines), hs, k))
  {
    ParseMatchesExpected(lines);
    ExpectedTasks(Classified(lines));
  }

  lemma TaskSection(lines: seq<string>, k: nat)
    requires k < |TaskLines(lines)|
    ensures var ls, hs := Classified(lines), TaskLines(lines);
      && HeadingText(lines[hs[k]], TaskMarker) != ""
      && SectionAt(ls, hs, k) == Section(HeadingText(lines[hs[k]], TaskMarker), BodyLines(ls, hs[k] + 1, SectionEnd(|lines|, hs, k)))
  {
    var ls, hs := Classified(lines), TaskLines(lines);
    TaskLinesExact(lines);
    ClassifiedHeadings(lines);
    assert OpensTask(lines[hs[k]]);
    assert ls[hs[k]].kind == TaskHeading(HeadingText(lines[hs[k]], TaskMarker));
  }

  /** The last project heading, if any, names the project. */
  lemma {:induction false} LastProjectNameSpec(ls: seq<Line>)
    ensures LastProjectName(ls) != "" ==>
      exists i :: 0 <= i < |ls| && ls[i].kind.ProjectHeading? && ls[i].kind.name == LastProjectName(ls)
                  && forall j :: i < j < |ls| ==> !ls[j].kind.ProjectHeading?
    decreases |ls|
  {
    if ls != [] && !ls[|ls| - 1].kind.ProjectHeading? {
      var init := ls[..|ls| - 1];
      LastProjectNameSpec(init);
      if LastProjectName(init) != "" {
        var i :| 0 <= i < |init| && init[i].kind.ProjectHeading? && init[i].kind.name == LastProjectName(init)
                 && forall j :: i < j < |init| ==> !init[j].kind.ProjectHeading?;
        assert ls[i] == init[i];
      }
    }
  }

  /** On success the project is named by the last line that opens a
      project: a later "# " line replaces an earlier one. */
  lemma ParsedProjectName(lines: seq<string>)
    requires Parse(lines).Parsed?
    ensures exists i :: 0 <= i < |lines| && OpensProject(lines[i])
              && Parse(lines).doc.projectName == HeadingText(lines[i], ProjectMarker) != ""
              && forall j :: i < j < |lines| ==> !OpensProject(lines[j])
  {
    var ls := Classified(lines);
    ParseMatchesExpected(lines);
    ClassifiedHeadings(lines);
    assert forall i :: 0 <= i < |ls| && ls[i].kind.ProjectHeading? ==> ls[i].kind.name != "";
    LastProjectNameEmpty(ls);
    LastProjectNameSpec(ls);
    var name := LastProjectName(ls);
    assert name == Parse(lines).doc.projectName != "";
    var i :| 0 <= i < |ls| && ls[i].kind.ProjectHeading? && ls[i].kind.name == name
             && forall j :: i < j < |ls| ==> !ls[j].kind.ProjectHeading?;
    assert IsHeading(ls[i], 1);
    forall j | i < j < |lines| ensures !OpensProject(lines[j]) {
      assert !IsHeading(ls[j], 1);
    }
  }

  lemma {:induction false} FoldConcat(s: Scanner, a: seq<Line>, b: seq<Line>)
    ensures Fold(s, a + b) == Fold(Fold(s, a), b)
    decreases |b|
  {
    if b == [] {
      assert a + b == a;
    } else {
      var init := b[..|b| - 1];
      FoldConcat(s, a, init);
      assert (a + b)[..|a + b| - 1] == a + init;
      assert (a + b)[|a + b| - 1] == b[|b| - 1];
    }
  }

  lemma ClassifiedConcat(a: seq<string>, b: seq<string>)
    ensures Classified(a + b) == Classified(a) + Classified(b)
  {
  }

  /** A line that is not a heading and comes before every task heading has
      no effect on the result. */
  lemma PreambleLineIgnored(pre: seq<string>, line: string, post: seq<string>)
    requires forall i :: 0 <= i < |pre| ==> !OpensTask(pre[i])
    requires !OpensProject(line) && !OpensTask(line)
    ensures Parse(pre + [line] + post) == Parse(pre + post)
  {
    var a, x, b := Classified(pre), Classified([line]), Classified(post);
    ClassifiedConcat(pre + [line], post);
    ClassifiedConcat(pre, [line]);
    ClassifiedConcat(pre, post);
    FoldConcat(Start, a + x, b);
    FoldConcat(Start, a, x);
    FoldConcat(Start, a, b);
    FoldTasks(a);
    HeadingsEmpty(a, 2);
    forall i | 0 <= i < |pre| {
      ClassifySpec(pre[i]);
    }
    ClassifySpec(line);
    assert x == [] + [x[0]];
    FoldAppend(Fold(Start, a), [], x[0]);
  }

  // ---------------------------------------------------------------------
  // Examples
  // ---------------------------------------------------------------------

  /** The document of the parser's unit test (markdown_parser_test.go),
      cut at its task headings. */
  const Preamble: seq<string> := ["# My Project", ""]
  const FirstTaskBody: seq<string> := ["This is the first task", "- Detail 1", "- Detail 2"]
  const FirstTask: seq<string> := ["## Task 1"] + FirstTaskBody + [""]
  const SecondTask: seq<string> := ["## Task 2", "Second task description", ""]
  const ThirdTask: seq<string> := ["## Task 3", "Third task"]
  const TestDocument: seq<string> := Preamble + FirstTask + SecondTask + ThirdTask

  /** A string without surrounding white space is its own trim. */
  lemma TrimSpaceKeeps(s: string)
    requires s != [] && !IsSpace(s[0]) && !IsSpace(s[|s| - 1])
    ensures TrimSpace(s) == s
  {
  }

  /** A line with no surrounding white space that does not start with '#'
      is a body line. */
  lemma PlainLineIsBody(line: string)
    requires line != [] && !IsSpace(line[0]) && !IsSpace(line[|line| - 1]) && line[0] != '#'
    ensures Classify(line) == Body
  {
    TrimSpaceKeeps(line);
  }

  /** "# " or "## " followed by a text with no surrounding white space. */
  lemma HeadingLine(marker: string, text: string)
    requires marker == ProjectMarker || marker == TaskMarker
    requires text != [] && !IsSpace(text[0]) && !IsSpace(text[|text| - 1])
    ensures Classify(marker + text) == if marker == ProjectMarker then ProjectHeading(text) else TaskHeading(text)
  {
    var line := marker + text;
    TrimSpaceKeeps(line);
    TrimSpaceKeeps(text);
    assert line[..|marker|] == marker && line[|marker|..] == text;
    if marker == TaskMarker {
      assert line[1] == '#';
    }
  }

  /** White space after a line changes nothing about how it is read. */
  lemma TrailingSpaceIgnored(line: string, pad: string)
    requires AllSpace(pad)
    ensures Classify(line + pad) == Classify(line)
  {
    TrimSpacePad(line, pad);
  }

  lemma SecondTaskHeading()
    ensures Classify("## Second Task") == TaskHeading("Second Task")
  {
    assert TaskMarker + "Second Task" == "## Second Task";
    HeadingLine(TaskMarker, "Second Task");
  }

  /** The upload fixture's second heading has two trailing spaces; its
      title is still "Second Task". */
  lemma FixtureHeading()
    ensures Classify("## Second Task  ") == TaskHeading("Second Task")
  {
    SecondTaskHeading();
    TrailingSpaceIgnored("## Second Task", "  ");
    assert "## Second Task" + "  " == "## Second Task  ";
  }

  lemma TestProjectHeading()
    ensures Classify("# My Project") == ProjectHeading("My Project")
  {
    assert ProjectMarker + "My Project" == "# My Project";
    HeadingLine(ProjectMarker, "My Project");
  }

  lemma TestTaskHeading(text: string)
    requires text == "Task 1" || text == "Task 2" || text == "Task 3"
    ensures Classify(TaskMarker + text) == TaskHeading(text)
  {
    HeadingLine(TaskMarker, text);
  }

  const PreambleLines := [Line(ProjectHeading("My Project"), "# My Project"), Line(Blank, "")]
  const FirstTaskBodyLines := [Line(Body, FirstTaskBody[0]), Line(Body, FirstTaskBody[1]), Line(Body, FirstTaskBody[2])]
  const FirstTaskLines := [Line(TaskHeading("Task 1"), "## Task 1")] + FirstTaskBodyLines + [Line(Blank, "")]
  const SecondTaskLines := [Line(TaskHeading("Task 2"), "## Task 2"), Line(Body, "Second task description"), Line(Blank, "")]
  const ThirdTaskLines := [Line(TaskHeading("Task 3"), "## Task 3"), Line(Body, "Third task")]

  lemma PreambleClassified()
    ensures Classified(Preamble) == PreambleLines
  {
    TestProjectHeading();
    assert Classify("") == Blank;
  }

  lemma FirstTaskBodyClassified()
    ensures Classified(FirstTaskBody) == FirstTaskBodyLines
  {
    PlainLineIsBody("This is the first task");
    PlainLineIsBody("- Detail 1");
    PlainLineIsBody("- Detail 2");
  }

  lemma FirstTaskClassified()
    ensures Classified(FirstTask) == FirstTaskLines
  {
    ClassifiedConcat(["## Task 1"] + FirstTaskBody, [""]);
    ClassifiedConcat(["## Task 1"], FirstTaskBody);
    FirstTaskBodyClassified();
    assert TaskMarker + "Task 1" == "## Task 1";
    TestTaskHeading("Task 1");
    assert Classified([""]) == [Line(Blank, "")];
  }

  /** A heading, a body line and a blank line. */
  lemma SectionOfThree(heading: string, title: string, body: string, blank: string)
    requires Classify(heading) == TaskHeading(title) && Classify(body) == Body && Classify(blank) == Blank
    ensures Classified([heading, body, blank]) == [Line(TaskHeading(title), heading), Line(Body, body), Line(Blank, blank)]
  {
  }

  /** A heading and a body line. */
  lemma SectionOfTwo(heading: string, title: string, body: string)
    requires Classify(heading) == TaskHeading(title) && Classify(body) == Body
    ensures Classified([heading, body]) == [Line(TaskHeading(title), heading), Line(Body, body)]
  {
  }

  lemma SecondTaskLineKinds()
    ensures Classify("## Task 2") == TaskHeading("Task 2")
    ensures Classify("Second task description") == Body
    ensures Classify("") == Blank
  {
    assert TaskMarker + "Task 2" == "## Task 2";
    TestTaskHeading("Task 2");
    PlainLineIsBody("Second task description");
  }

  lemma SecondTaskClassified()
    ensures Classified(SecondTask) == SecondTaskLines
  {
    SecondTaskLineKinds();
    SectionOfThree("## Task 2", "Task 2", "Second task description", "");
  }

  lemma ThirdTaskLineKinds()
    ensures Classify("## Task 3") == TaskHeading("Task 3")
    ensures Classify("Third task") == Body
  {
    assert TaskMarker + "Task 3" == "## Task 3";
    TestTaskHeading("Task 3");
    PlainLineIsBody("Third task");
  }

  lemma ThirdTaskClassified()
    ensures Classified(ThirdTask) == ThirdTaskLines
  {
    ThirdTaskLineKinds();
    SectionOfTwo("## Task 3", "Task 3", "Third task");
  }

  lemma TestDocumentClassified()
    ensures Classified(TestDocument) == PreambleLines + FirstTaskLines + SecondTaskLines + ThirdTaskLines
  {
    ClassifiedConcat(Preamble + FirstTask + SecondTask, ThirdTask);
    ClassifiedConcat(Preamble + FirstTask, SecondTask);
    ClassifiedConcat(Preamble, FirstTask);
    PreambleClassified();
    FirstTaskClassified();
    SecondTaskClassified();
    ThirdTaskClassified();
  }

  lemma FoldStep(s: Scanner, ls: seq<Line>, k: nat)
    requires k < |ls|
    ensures Fold(s, ls[..k + 1]) == Advance(Fold(s, ls[..k]), ls[k])
  {
    assert ls[..k + 1][..k] == ls[..k];
  }

  const AfterPreamble := Scanner("My Project", [], None, [])
  const AfterFirstTask := Scanner("My Project", [], Some(TaskData("Task 1", "")), FirstTaskBody)
  const AfterSecondTask := Scanner("My Project", [TaskData("Task 1", Description(FirstTaskBody))],
    Some(TaskData("Task 2", "")), ["Second task description"])
  const AfterThirdTask := Scanner("My Project",
    [TaskData("Task 1", Description(FirstTaskBody)), TaskData("Task 2", Description(["Second task description"]))],
    Some(TaskData("Task 3", "")), ["Third task"])

  lemma PreambleFold()
    ensures Fold(Start, PreambleLines) == AfterPreamble
  {
    var ls := PreambleLines;
    assert ls[..0] == [] && ls[..2] == ls;
    FoldStep(Start, ls, 0); FoldStep(Start, ls, 1);
  }

  lemma FirstTaskFold()
    ensures Fold(AfterPreamble, FirstTaskLines) == AfterFirstTask
  {
    var s, ls := AfterPreamble, FirstTaskLines;
    assert ls[..0] == [] && ls[..5] == ls;
    FoldStep(s, ls, 0); FoldStep(s, ls, 1); FoldStep(s, ls, 2); FoldStep(s, ls, 3); FoldStep(s, ls, 4);
  }

  lemma SecondTaskFold()
    ensures Fold(AfterFirstTask, SecondTaskLines) == AfterSecondTask
  {
    var s, ls := AfterFirstTask, SecondTaskLines;
    assert ls[..0] == [] && ls[..3] == ls;
    FoldStep(s, ls, 0); FoldStep(s, ls, 1); FoldStep(s, ls, 2);
  }

  lemma ThirdTaskFold()
    ensures Fold(AfterSecondTask, ThirdTaskLines) == AfterThirdTask
  {
    var s, ls := AfterSecondTask, ThirdTaskLines;
    assert ls[..0] == [] && ls[..2] == ls;
    FoldStep(s, ls, 0); FoldStep(s, ls, 1);
  }

  lemma TestDocumentFold()
    ensures Scan(Start, TestDocument) == AfterThirdTask
  {
    TestDocumentClassified();
    FoldConcat(Start, PreambleLines + FirstTaskLines + SecondTaskLines, ThirdTaskLines);
    FoldConcat(Start, PreambleLines + FirstTaskLines, SecondTaskLines);
    FoldConcat(Start, PreambleLines, FirstTaskLines);
    PreambleFold();
    FirstTaskFold();
    SecondTaskFold();
    ThirdTaskFold();
  }

  lemma TestDocumentDescriptions()
    ensures Description(FirstTaskBody) == "This is the first task\n- Detail 1\n- Detail 2"
    ensures Description(["Second task description"]) == "Second task description"
    ensures Description(["Third task"]) == "Third task"
  {
    var d1 := "This is the first task\n- Detail 1\n- Detail 2";
    assert Join(FirstTaskBody, "\n") == d1;
    TrimSpaceKeeps(d1);
    TrimSpaceKeeps("Second task description");
    TrimSpaceKeeps("Third task");
  }

  /** A scan that ends with a project name and a task open. */
  lemma FinishOpen(s: Scanner)
    requires s.projectName != "" && s.currentTask.Some?
    ensures Finish(s) == Parsed(ParsedMarkdown(s.projectName,
              s.tasks + [s.currentTask.value.(description := Description(s.descriptionLines))]))
  {
  }

  lemma TestDocumentFinish()
    ensures Finish(AfterThirdTask) == Parsed(ParsedMarkdown("My Project", [
      TaskData("Task 1", "This is the first task\n- Detail 1\n- Detail 2"),
      TaskData("Task 2", "Second task description"),
      TaskData("Task 3", "Third task")]))
  {
    var d1, d2, d3 := Description(FirstTaskBody), Description(["Second task description"]), Description(["Third task"]);
    FinishOpen(AfterThirdTask);
    assert Finish(AfterThirdTask) == Parsed(ParsedMarkdown("My Project",
      [TaskData("Task 1", d1), TaskData("Task 2", d2), TaskData("Task 3", d3)]));
    TestDocumentDescriptions();
  }

  /** The unit test's expectations: project "My Project" with three tasks,
      the first titled "Task 1". */
  lemma TestDocumentParses()
    ensures Parse(TestDocument) == Parsed(ParsedMarkdown("My Project", [
      TaskData("Task 1", "This is the first task\n- Detail 1\n- Detail 2"),
      TaskData("Task 2", "Second task description"),
      TaskData("Task 3", "Third task")]))
  {
    TestDocumentFold();
    TestDocumentFinish();
  }
}
