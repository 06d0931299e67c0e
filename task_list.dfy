/**
 * The task list of a course page. It follows the lesson list: tasks in
 * ascending sort order, an add form, an inline edit form, one expandable row
 * at a time, an error banner and the id of the task being deleted. It adds
 * an enrolment flag that offers a submit button leading to the task's page,
 * and it hides the empty message while the add form is open.
 */
module TaskList {
  import opened Wrappers
  import StableSort
  import Decimal
  import SeqLemmas

  datatype Task = Task(
    id: int,
    courseId: int,
    title: string,
    description: string,
    sortOrder: int,
    createdAt: string,
    updatedAt: string)

  /** What the task form submits; the description may be missing or empty. */
  datatype TaskFormData = TaskFormData(title: string, description: Option<string>)

  datatype CreateTaskRequest = CreateTaskRequest(title: string, description: Option<string>, sortOrder: Option<int>)

  datatype UpdateTaskRequest = UpdateTaskRequest(title: string, description: Option<string>)

  const CreateFailed := "課題の作成に失敗しました"
  const UpdateFailed := "課題の更新に失敗しました"
  const DeleteFailed := "課題の削除に失敗しました"
  const EmptyMessage := "課題はまだありません"

  function SortOrderOf(t: Task): int { t.sortOrder }

  function IdOf(t: Task): int { t.id }

  /** The tasks in display order: a sorted copy, ascending by sortOrder, ties in their given order. */
  function SortedTasks(tasks: seq<Task>): (r: seq<Task>)
    ensures |r| == |tasks|
    ensures multiset(r) == multiset(tasks)
    ensures forall i, j :: 0 <= i < j < |r| ==> r[i].sortOrder <= r[j].sortOrder
    ensures StableSort.SameKeyGroups(r, tasks, SortOrderOf)
  {
    StableSort.SortByCorrect(tasks, SortOrderOf);
    StableSort.SortBy(tasks, SortOrderOf)
  }

  /** Any ascending rearrangement that keeps ties in their given order is the displayed list. */
  lemma SortedTasksUnique(tasks: seq<Task>, other: seq<Task>)
    requires forall i, j :: 0 <= i < j < |other| ==> other[i].sortOrder <= other[j].sortOrder
    requires StableSort.SameKeyGroups(other, tasks, SortOrderOf)
    ensures other == SortedTasks(tasks)
  {
    var r := SortedTasks(tasks);
    assert StableSort.SortedBy(other, SortOrderOf);
    assert StableSort.SortedBy(r, SortOrderOf);
    StableSort.SortedAndStableIsUnique(r, other, SortOrderOf);
  }

  /** Two tasks given in reverse order are shown in sortOrder order. */
  lemma {:induction false} SortedTasksReversesTwo(first: Task, second: Task)
    requires first.sortOrder < second.sortOrder
    ensures SortedTasks([second, first]) == [first, second]
  {
    var s := [second, first];
    assert s[..1] == [second] && [second][..0] == [];
    assert StableSort.SortBy([second], SortOrderOf) == [second];
    assert StableSort.SortBy(s, SortOrderOf) == StableSort.Insert(first, [second], SortOrderOf);
  }

  /** A form description reaches the server only when it is present and non-empty. */
  function SentDescription(description: Option<string>): (r: Option<string>)
    ensures r.Some? <==> description.Some? && description.value != ""
    ensures r.Some? ==> r == description
  {
    if description.None? || description.value == "" then None else description
  }

  const CoursesPrefix := "/courses/"
  const TasksSegment := "tasks/"

  /** The page the submit button of a task leads to. */
  function SubmissionPath(courseId: int, taskId: int): (path: string)
    ensures |path| > |"/courses/"| && path[..|"/courses/"|] == "/courses/"
  {
    "/courses/" + Decimal.IntToString(courseId) + "/tasks/" + Decimal.IntToString(taskId)
  }

  /** Where the first slash of s is; |s| when there is none. */
  function SlashIndex(s: string): (k: nat)
    ensures k <= |s|
    ensures forall m :: 0 <= m < k ==> s[m] != '/'
    ensures k < |s| ==> s[k] == '/'
  {
    if s == [] || s[0] == '/' then 0 else 1 + SlashIndex(s[1..])
  }

  /** A slash-free part followed by a slash: the first slash is the separator. */
  lemma {:induction false} SlashIndexAfter(a: string, x: string)
    requires forall k :: 0 <= k < |a| ==> a[k] != '/'
    ensures SlashIndex(a + "/" + x) == |a|
  {
    if a == [] {
      assert (a + "/" + x)[0] == '/';
    } else {
      assert (a + "/" + x)[0] == a[0];
      assert (a + "/" + x)[1..] == a[1..] + "/" + x;
      SlashIndexAfter(a[1..], x);
    }
  }

  /** The path with the course id and the rest grouped apart. */
  lemma SubmissionPathRegrouped(courseId: int, taskId: int)
    ensures SubmissionPath(courseId, taskId) ==
      "/courses/" + (Decimal.IntToString(courseId) + "/" + ("tasks/" + Decimal.IntToString(taskId)))
  {
    var c, t := Decimal.IntToString(courseId), Decimal.IntToString(taskId);
    assert "/tasks/" == "/" + "tasks/";
    SeqLemmas.ConcatAssociative("/courses/" + c, "/tasks/", t);
    SeqLemmas.ConcatAssociative("/courses/" + c, "/", "tasks/");
    SeqLemmas.ConcatAssociative(c, "/", "tasks/" + t);
    SeqLemmas.ConcatAssociative("/courses/", c, "/" + ("tasks/" + t));
    SeqLemmas.ConcatAssociative("/courses/" + c, "/", "tasks/" + t);
  }

  /**
   * Reads a submission page's path: "/courses/", the course id's text up to
   * the next slash, then "/tasks/" and the task id's text to the end. None
   * for any other shape.
   */
  function ParseSubmissionPath(path: string): Option<(int, int)> {
    if |path| < |CoursesPrefix| || path[..|CoursesPrefix|] != CoursesPrefix then None
    else
      var rest := path[|CoursesPrefix|..];
      var k := SlashIndex(rest);
      if k == |rest| then None
      else
        var after := rest[k + 1..];
        if |after| < |TasksSegment| || after[..|TasksSegment|] != TasksSegment then None
        else
          var course, task := Decimal.ParseInt(rest[..k]), Decimal.ParseInt(after[|TasksSegment|..]);
          if course.Some? && task.Some? then Some((course.value, task.value)) else None
  }

  /**
   * The submit button's page is "/courses/<course id>/tasks/<task id>":
   * reading that shape back gives exactly the two ids.
   */
  lemma SubmissionPathReadsBack(courseId: int, taskId: int)
    ensures ParseSubmissionPath(SubmissionPath(courseId, taskId)) == Some((courseId, taskId))
  {
    var c, t := Decimal.IntToString(courseId), Decimal.IntToString(taskId);
    var path := SubmissionPath(courseId, taskId);
    SubmissionPathRegrouped(courseId, taskId);
    var rest := path[|CoursesPrefix|..];
    assert rest == c + "/" + (TasksSegment + t);
    SlashIndexAfter(c, TasksSegment + t);
    assert rest[..|c|] == c;
    var after := rest[|c| + 1..];
    assert after == TasksSegment + t;
    assert after[|TasksSegment|..] == t;
    Decimal.ParseIntToString(courseId);
    Decimal.ParseIntToString(taskId);
  }

  /** Different tasks lead to different pages. */
  lemma SubmissionPathInjective(course1: int, task1: int, course2: int, task2: int)
    requires SubmissionPath(course1, task1) == SubmissionPath(course2, task2)
    ensures course1 == course2 && task1 == task2
  {
    SubmissionPathReadsBack(course1, task1);
    SubmissionPathReadsBack(course2, task2);
  }

  /**
   * How a row is drawn: the inline edit form, or the header with, when
   * expanded, the description (if any), the admin's edit and delete buttons
   * and, for an enrolled user, the submit button with the page it leads to.
   */
  datatype Row =
    | EditRow(task: Task)
    | DisplayRow(task: Task, expanded: bool, description: bool, adminActions: bool, submit: Option<string>, deleting: bool)

  datatype TaskListView = TaskListView(
    addButton: bool,
    errorBanner: Option<string>,
    addForm: bool,
    rows: seq<Row>,
    emptyMessage: Option<string>)

  function RowFor(courseId: int, task: Task, isAdmin: bool, isEnrolled: bool, editing: Option<Task>, expanded: Option<int>, deleting: Option<int>): (row: Row)
    ensures row.task == task
    ensures row.EditRow? <==> editing.Some? && editing.value.id == task.id
    ensures row.DisplayRow? ==>
      (row.expanded <==> expanded == Some(task.id)) &&
      (row.description <==> row.expanded && task.description != "") &&
      (row.adminActions <==> row.expanded && isAdmin) &&
      (row.submit.Some? <==> row.expanded && isEnrolled) &&
      (row.submit.Some? ==> row.submit.value == SubmissionPath(courseId, task.id)) &&
      (row.deleting <==> deleting == Some(task.id))
  {
    if editing.Some? && editing.value.id == task.id then EditRow(task)
    else
      var open := expanded == Some(task.id);
      DisplayRow(task, open, open && task.description != "", open && isAdmin,
        if open && isEnrolled then Some(SubmissionPath(courseId, task.id)) else None, deleting == Some(task.id))
  }

  function Rows(courseId: int, tasks: seq<Task>, isAdmin: bool, isEnrolled: bool, editing: Option<Task>, expanded: Option<int>, deleting: Option<int>): (rows: seq<Row>)
    ensures |rows| == |tasks|
    ensures forall i :: 0 <= i < |rows| ==> rows[i].task == tasks[i]
    ensures forall i :: 0 <= i < |rows| ==>
      (rows[i].EditRow? <==> editing.Some? && editing.value.id == rows[i].task.id)
    ensures forall i :: 0 <= i < |rows| && rows[i].DisplayRow? ==>
      (rows[i].expanded <==> expanded == Some(rows[i].task.id)) &&
      (rows[i].description <==> rows[i].expanded && rows[i].task.description != "") &&
      (rows[i].adminActions <==> rows[i].expanded && isAdmin) &&
      (rows[i].submit.Some? <==> rows[i].expanded && isEnrolled) &&
      (rows[i].submit.Some? ==> rows[i].submit.value == SubmissionPath(courseId, rows[i].task.id)) &&
      (rows[i].deleting <==> deleting == Some(rows[i].task.id))
  {
    if tasks == [] then []
    else [RowFor(courseId, tasks[0], isAdmin, isEnrolled, editing, expanded, deleting)] + Rows(courseId, tasks[1..], isAdmin, isEnrolled, editing, expanded, deleting)
  }

  class TaskListState {
    var showAddForm: bool
    var editingTask: Option<Task>
    var expandedTask: Option<int>
    var error: string
    var deletingId: Option<int>

    /** The add form and the edit form are never open together. */
    predicate Valid()
      reads this
    {
      !(showAddForm && editingTask.Some?)
    }

    constructor ()
      ensures Valid()
      ensures !showAddForm && editingTask == None && expandedTask == None
      ensures error == "" && deletingId == None
    {
      showAddForm := false;
      editingTask := None;
      expandedTask := None;
      error := "";
      deletingId := None;
    }

    /** The add button: opens the add form and drops any edit in progress. */
    method OpenAddForm()
      modifies this
      ensures Valid()
      ensures showAddForm && editingTask == None
      ensures expandedTask == old(expandedTask) && error == old(error) && deletingId == old(deletingId)
    {
      showAddForm := true;
      editingTask := None;
    }

    /** Cancel on the add form. */
    method CancelAddForm()
      modifies this
      requires Valid()
      ensures Valid()
      ensures !showAddForm
      ensures editingTask == old(editingTask) && expandedTask == old(expandedTask)
      ensures error == old(error) && deletingId == old(deletingId)
    {
      showAddForm := false;
    }

    /** The edit button of an expanded row: edits that task and closes the add form. */
    method StartEditing(task: Task)
      modifies this
      ensures Valid()
      ensures editingTask == Some(task) && !showAddForm
      ensures expandedTask == old(expandedTask) && error == old(error) && deletingId == old(deletingId)
    {
      editingTask := Some(task);
      showAddForm := false;
    }

    /** Cancel on the edit form. */
    method CancelEditing()
      modifies this
      requires Valid()
      ensures Valid()
      ensures editingTask == None
      ensures showAddForm == old(showAddForm) && expandedTask == old(expandedTask)
      ensures error == old(error) && deletingId == old(deletingId)
    {
      editingTask := None;
    }

    /** A click on a row header: collapses the expanded task, or expands this one instead of any other. */
    method ToggleExpanded(id: int)
      modifies this
      requires Valid()
      ensures Valid()
      ensures old(expandedTask) == Some(id) ==> expandedTask == None
      ensures old(expandedTask) != Some(id) ==> expandedTask == Some(id)
      ensures showAddForm == old(showAddForm) && editingTask == old(editingTask)
      ensures error == old(error) && deletingId == old(deletingId)
    {
      expandedTask := if expandedTask == Some(id) then None else Some(id);
    }

    /**
     * Submitting the add form: the request carries the next sortOrder and
     * leaves out an empty description. The error is cleared first; success
     * closes the form and reloads the list, failure shows the create message.
     */
    method CreateTask(tasks: seq<Task>, data: TaskFormData, succeeded: bool)
      returns (request: CreateTaskRequest, changed: bool)
      modifies this
      requires Valid()
      ensures Valid()
      ensures request == CreateTaskRequest(data.title, SentDescription(data.description), Some(|tasks| + 1))
      ensures changed <==> succeeded
      ensures succeeded ==> !showAddForm && error == ""
      ensures !succeeded ==> showAddForm == old(showAddForm) && error == CreateFailed
      ensures editingTask == old(editingTask) && expandedTask == old(expandedTask)
      ensures deletingId == old(deletingId)
    {
      error := "";
      request := CreateTaskRequest(data.title, SentDescription(data.description), Some(|tasks| + 1));
      if succeeded {
        showAddForm := false;
        changed := true;
      } else {
        error := CreateFailed;
        changed := false;
      }
    }

    /**
     * Submitting the edit form. Without a task being edited nothing happens.
     * Otherwise the request goes to the edited task's id; success leaves edit
     * mode and reloads the list, failure shows the update message.
     */
    method UpdateTask(data: TaskFormData, succeeded: bool)
      returns (request: Option<(int, UpdateTaskRequest)>, changed: bool)
      modifies this
      requires Valid()
      ensures Valid()
      ensures old(editingTask).None? ==>
        request == None && !changed && editingTask == None && error == old(error)
      ensures old(editingTask).Some? ==>
        request == Some((old(editingTask).value.id, UpdateTaskRequest(data.title, SentDescription(data.description))))
      ensures old(editingTask).Some? ==> (changed <==> succeeded)
      ensures old(editingTask).Some? && succeeded ==> editingTask == None && error == ""
      ensures old(editingTask).Some? && !succeeded ==> editingTask == old(editingTask) && error == UpdateFailed
      ensures showAddForm == old(showAddForm) && expandedTask == old(expandedTask)
      ensures deletingId == old(deletingId)
    {
      if editingTask.None? {
        return None, false;
      }
      error := "";
      request := Some((editingTask.value.id, UpdateTaskRequest(data.title, SentDescription(data.description))));
      if succeeded {
        editingTask := None;
        changed := true;
      } else {
        error := UpdateFailed;
        changed := false;
      }
    }

    /**
     * The delete button, up to the request: a declined confirmation changes
     * nothing; otherwise the error is cleared and the task is marked as
     * being deleted while the request runs.
     */
    method BeginDelete(id: int, confirmed: bool) returns (requested: bool)
      modifies this
      requires Valid()
      ensures Valid()
      ensures requested <==> confirmed
      ensures !confirmed ==> error == old(error) && deletingId == old(deletingId)
      ensures confirmed ==> error == "" && deletingId == Some(id)
      ensures showAddForm == old(showAddForm) && editingTask == old(editingTask)
      ensures expandedTask == old(expandedTask)
    {
      requested := confirmed;
      if confirmed {
        error := "";
        deletingId := Some(id);
      }
    }

    /** The delete request's outcome; either way no task is marked as being deleted any more. */
    method FinishDelete(succeeded: bool) returns (changed: bool)
      modifies this
      requires Valid()
      ensures Valid()
      ensures changed <==> succeeded
      ensures deletingId == None
      ensures error == if succeeded then old(error) else DeleteFailed
      ensures showAddForm == old(showAddForm) && editingTask == old(editingTask)
      ensures expandedTask == old(expandedTask)
    {
      changed := succeeded;
      if !succeeded {
        error := DeleteFailed;
      }
      deletingId := None;
    }

    /** A whole delete; `during` is the task marked as being deleted while the request runs. */
    method DeleteTask(id: int, confirmed: bool, succeeded: bool)
      returns (during: Option<int>, changed: bool)
      modifies this
      requires Valid()
      ensures Valid()
      ensures !confirmed ==> !changed && error == old(error) && deletingId == old(deletingId)
      ensures confirmed ==> during == Some(id) && deletingId == None
      ensures confirmed ==> (changed <==> succeeded) && error == (if succeeded then "" else DeleteFailed)
      ensures showAddForm == old(showAddForm) && editingTask == old(editingTask)
      ensures expandedTask == old(expandedTask)
    {
      var requested := BeginDelete(id, confirmed);
      during := deletingId;
      changed := false;
      if requested {
        changed := FinishDelete(succeeded);
      }
    }

    /**
     * What the list shows. The add button needs an admin and a closed add
     * form; one row per task in display order; the empty message appears
     * exactly when there are no tasks and the add form is closed.
     */
    function View(courseId: int, tasks: seq<Task>, isAdmin: bool, isEnrolled: bool): (v: TaskListView)
      reads this
      ensures v.addButton <==> isAdmin && !showAddForm
      ensures v.errorBanner == (if error == "" then None else Some(error))
      ensures v.addForm == showAddForm
      ensures v.emptyMessage.Some? <==> |tasks| == 0 && !showAddForm
      ensures v.emptyMessage.Some? ==> v.emptyMessage.value == EmptyMessage
      ensures |v.rows| == |tasks|
      ensures forall i :: 0 <= i < |v.rows| ==> v.rows[i].task == SortedTasks(tasks)[i]
      ensures forall i :: 0 <= i < |v.rows| ==>
        (v.rows[i].EditRow? <==> editingTask.Some? && editingTask.value.id == v.rows[i].task.id)
      ensures forall i :: 0 <= i < |v.rows| && v.rows[i].DisplayRow? ==>
        (v.rows[i].expanded <==> expandedTask == Some(v.rows[i].task.id)) &&
        (v.rows[i].description <==> v.rows[i].expanded && v.rows[i].task.description != "") &&
        (v.rows[i].adminActions <==> v.rows[i].expanded && isAdmin) &&
        (v.rows[i].submit.Some? <==> v.rows[i].expanded && isEnrolled) &&
        (v.rows[i].submit.Some? ==> v.rows[i].submit.value == SubmissionPath(courseId, v.rows[i].task.id)) &&
        (v.rows[i].deleting <==> deletingId == Some(v.rows[i].task.id))
    {
      var sorted := SortedTasks(tasks);
      TaskListView(
        isAdmin && !showAddForm,
        if error == "" then None else Some(error),
        showAddForm,
        Rows(courseId, sorted, isAdmin, isEnrolled, editingTask, expandedTask, deletingId),
        if |sorted| == 0 && !showAddForm then Some(EmptyMessage) else None)
    }
  }

  /** With distinct task ids, at most one row is expanded and at most one row is the edit form. */
  lemma {:induction false} SingleExpandedRow(state: TaskListState, courseId: int, tasks: seq<Task>, isAdmin: bool, isEnrolled: bool, i: nat, j: nat)
    requires StableSort.DistinctKeys(tasks, IdOf)
    requires i < j < |state.View(courseId, tasks, isAdmin, isEnrolled).rows|
    ensures !(state.View(courseId, tasks, isAdmin, isEnrolled).rows[i].DisplayRow? && state.View(courseId, tasks, isAdmin, isEnrolled).rows[i].expanded &&
              state.View(courseId, tasks, isAdmin, isEnrolled).rows[j].DisplayRow? && state.View(courseId, tasks, isAdmin, isEnrolled).rows[j].expanded)
    ensures !(state.View(courseId, tasks, isAdmin, isEnrolled).rows[i].EditRow? && state.View(courseId, tasks, isAdmin, isEnrolled).rows[j].EditRow?)
  {
    var sorted := SortedTasks(tasks);
    StableSort.PermutationKeepsDistinctKeys(sorted, tasks, IdOf);
    assert IdOf(sorted[i]) != IdOf(sorted[j]);
  }
}
