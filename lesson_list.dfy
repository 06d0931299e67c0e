/**
 * The lesson list of a course page: the lessons shown in ascending sort
 * order, an add form, an inline edit form, one expandable row at a time, an
 * error banner and the id of the lesson being deleted. The five pieces of
 * component state are the fields of LessonListState; each user action or
 * request outcome is a method. Server answers are boolean parameters, the
 * browser's confirmation dialog is the `confirmed` parameter, and
 * "onLessonsChange was called" is the `changed` out-parameter.
 */
module LessonList {
  import opened Wrappers
  import StableSort

  datatype Lesson = Lesson(
    id: int,
    courseId: int,
    title: string,
    contentPath: string,
    sortOrder: int,
    published: bool,
    createdAt: string,
    updatedAt: string)

  /** What the lesson form submits; `published` may be left out. */
  datatype LessonFormData = LessonFormData(title: string, contentPath: string, published: Option<bool>)

  datatype CreateLessonRequest = CreateLessonRequest(
    title: string, contentPath: string, sortOrder: Option<int>, published: Option<bool>)

  datatype UpdateLessonRequest = UpdateLessonRequest(title: string, contentPath: string, published: Option<bool>)

  const CreateFailed := "レッスンの作成に失敗しました"
  const UpdateFailed := "レッスンの更新に失敗しました"
  const DeleteFailed := "レッスンの削除に失敗しました"
  const EmptyMessage := "レッスンはまだありません"

  function SortOrderOf(l: Lesson): int { l.sortOrder }

  function IdOf(l: Lesson): int { l.id }

  /**
   * The lessons in display order: a sorted copy, ascending by sortOrder,
   * lessons with equal sortOrder kept in their given order.
   */
  function SortedLessons(lessons: seq<Lesson>): (r: seq<Lesson>)
    ensures |r| == |lessons|
    ensures multiset(r) == multiset(lessons)
    ensures forall i, j :: 0 <= i < j < |r| ==> r[i].sortOrder <= r[j].sortOrder
    ensures StableSort.SameKeyGroups(r, lessons, SortOrderOf)
  {
    StableSort.SortByCorrect(lessons, SortOrderOf);
    StableSort.SortBy(lessons, SortOrderOf)
  }

  /**
   * Any ascending rearrangement that keeps equal sortOrders in their given
   * order is the displayed list: the order does not depend on the sort used.
   */
  lemma SortedLessonsUnique(lessons: seq<Lesson>, other: seq<Lesson>)
    requires forall i, j :: 0 <= i < j < |other| ==> other[i].sortOrder <= other[j].sortOrder
    requires StableSort.SameKeyGroups(other, lessons, SortOrderOf)
    ensures other == SortedLessons(lessons)
  {
    var r := SortedLessons(lessons);
    assert StableSort.SortedBy(other, SortOrderOf);
    assert StableSort.SortedBy(r, SortOrderOf);
    StableSort.SortedAndStableIsUnique(r, other, SortOrderOf);
  }

  /** How a row is drawn: the inline edit form, or the header with its details when expanded. */
  datatype Row =
    | EditRow(lesson: Lesson)
    | DisplayRow(lesson: Lesson, expanded: bool, actions: bool, deleting: bool)

  datatype LessonListView = LessonListView(
    addButton: bool,
    errorBanner: Option<string>,
    addForm: bool,
    rows: seq<Row>,
    emptyMessage: Option<string>)

  /** The row for one lesson, given the component state. */
  function RowFor(lesson: Lesson, isAdmin: bool, editing: Option<Lesson>, expanded: Option<int>, deleting: Option<int>): (row: Row)
    ensures row.lesson == lesson
    ensures row.EditRow? <==> editing.Some? && editing.value.id == lesson.id
    ensures row.DisplayRow? ==>
      (row.expanded <==> expanded == Some(lesson.id)) &&
      (row.actions <==> row.expanded && isAdmin) &&
      (row.deleting <==> deleting == Some(lesson.id))
  {
    if editing.Some? && editing.value.id == lesson.id then EditRow(lesson)
    else
      var open := expanded == Some(lesson.id);
      DisplayRow(lesson, open, open && isAdmin, deleting == Some(lesson.id))
  }

  function Rows(lessons: seq<Lesson>, isAdmin: bool, editing: Option<Lesson>, expanded: Option<int>, deleting: Option<int>): (rows: seq<Row>)
    ensures |rows| == |lessons|
    ensures forall i :: 0 <= i < |rows| ==> rows[i].lesson == lessons[i]
    ensures forall i :: 0 <= i < |rows| ==>
      (rows[i].EditRow? <==> editing.Some? && editing.value.id == rows[i].lesson.id)
    ensures forall i :: 0 <= i < |rows| && rows[i].DisplayRow? ==>
      (rows[i].expanded <==> expanded == Some(rows[i].lesson.id)) &&
      (rows[i].actions <==> rows[i].expanded && isAdmin) &&
      (rows[i].deleting <==> deleting == Some(rows[i].lesson.id))
  {
    if lessons == [] then []
    else [RowFor(lessons[0], isAdmin, editing, expanded, deleting)] + Rows(lessons[1..], isAdmin, editing, expanded, deleting)
  }

  class LessonListState {
    var showAddForm: bool
    var editingLesson: Option<Lesson>
    var expandedLesson: Option<int>
    var error: string
    var deletingId: Option<int>

    /** The add form and the edit form are never open together. */
    predicate Valid()
      reads this
    {
      !(showAddForm && editingLesson.Some?)
    }

    constructor ()
      ensures Valid()
      ensures !showAddForm && editingLesson == None && expandedLesson == None
      ensures error == "" && deletingId == None
    {
      showAddForm := false;
      editingLesson := None;
      expandedLesson := None;
      error := "";
      deletingId := None;
    }

    /** The add button: opens the add form and drops any edit in progress. */
    method OpenAddForm()
      modifies this
      ensures Valid()
      ensures showAddForm && editingLesson == None
      ensures expandedLesson == old(expandedLesson) && error == old(error) && deletingId == old(deletingId)
    {
      showAddForm := true;
      editingLesson := None;
    }

    /** Cancel on the add form. */
    method CancelAddForm()
      modifies this
      requires Valid()
      ensures Valid()
      ensures !showAddForm
      ensures editingLesson == old(editingLesson) && expandedLesson == old(expandedLesson)
      ensures error == old(error) && deletingId == old(deletingId)
    {
      showAddForm := false;
    }

    /** The edit button of an expanded row: edits that lesson and closes the add form. */
    method StartEditing(lesson: Lesson)
      modifies this
      ensures Valid()
      ensures editingLesson == Some(lesson) && !showAddForm
      ensures expandedLesson == old(expandedLesson) && error == old(error) && deletingId == old(deletingId)
    {
      editingLesson := Some(lesson);
      showAddForm := false;
    }

    /** Cancel on the edit form. */
    method CancelEditing()
      modifies this
      requires Valid()
      ensures Valid()
      ensures editingLesson == None
      ensures showAddForm == old(showAddForm) && expandedLesson == old(expandedLesson)
      ensures error == old(error) && deletingId == old(deletingId)
    {
      editingLesson := None;
    }

    /** A click on a row header: collapses the expanded lesson, or expands this one instead of any other. */
    method ToggleExpanded(id: int)
      modifies this
      requires Valid()
      ensures Valid()
      ensures old(expandedLesson) == Some(id) ==> expandedLesson == None
      ensures old(expandedLesson) != Some(id) ==> expandedLesson == Some(id)
      ensures showAddForm == old(showAddForm) && editingLesson == old(editingLesson)
      ensures error == old(error) && deletingId == old(deletingId)
    {
      expandedLesson := if expandedLesson == Some(id) then None else Some(id);
    }

    /**
     * Submitting the add form. The request carries the next sortOrder, one
     * past the number of lessons; `succeeded` is the server's answer. The
     * error is cleared first; success closes the form and reloads the list,
     * failure shows the create message and keeps the form open.
     */
    method CreateLesson(lessons: seq<Lesson>, data: LessonFormData, succeeded: bool)
      returns (request: CreateLessonRequest, changed: bool)
      modifies this
      requires Valid()
      ensures Valid()
      ensures request == CreateLessonRequest(data.title, data.contentPath, Some(|lessons| + 1), data.published)
      ensures changed <==> succeeded
      ensures succeeded ==> !showAddForm && error == ""
      ensures !succeeded ==> showAddForm == old(showAddForm) && error == CreateFailed
      ensures editingLesson == old(editingLesson) && expandedLesson == old(expandedLesson)
      ensures deletingId == old(deletingId)
    {
      error := "";
      request := CreateLessonRequest(data.title, data.contentPath, Some(|lessons| + 1), data.published);
      if succeeded {
        showAddForm := false;
        changed := true;
      } else {
        error := CreateFailed;
        changed := false;
      }
    }

    /**
     * Submitting the edit form. Without a lesson being edited nothing
     * happens and no request is made. Otherwise the request goes to the
     * edited lesson's id; success leaves edit mode and reloads the list,
     * failure shows the update message and stays in edit mode.
     */
    method UpdateLesson(data: LessonFormData, succeeded: bool)
      returns (request: Option<(int, UpdateLessonRequest)>, changed: bool)
      modifies this
      requires Valid()
      ensures Valid()
      ensures old(editingLesson).None? ==>
        request == None && !changed && editingLesson == None && error == old(error)
      ensures old(editingLesson).Some? ==>
        request == Some((old(editingLesson).value.id, UpdateLessonRequest(data.title, data.contentPath, data.published)))
      ensures old(editingLesson).Some? ==> (changed <==> succeeded)
      ensures old(editingLesson).Some? && succeeded ==> editingLesson == None && error == ""
      ensures old(editingLesson).Some? && !succeeded ==> editingLesson == old(editingLesson) && error == UpdateFailed
      ensures showAddForm == old(showAddForm) && expandedLesson == old(expandedLesson)
      ensures deletingId == old(deletingId)
    {
      if editingLesson.None? {
        return None, false;
      }
      error := "";
      request := Some((editingLesson.value.id, UpdateLessonRequest(data.title, data.contentPath, data.published)));
      if succeeded {
        editingLesson := None;
        changed := true;
      } else {
        error := UpdateFailed;
        changed := false;
      }
    }

    /**
     * The delete button, up to the request: a declined confirmation changes
     * nothing; otherwise the error is cleared and the lesson is marked as
     * being deleted while the request runs.
     */
    method BeginDelete(id: int, confirmed: bool) returns (requested: bool)
      modifies this
      requires Valid()
      ensures Valid()
      ensures requested <==> confirmed
      ensures !confirmed ==> error == old(error) && deletingId == old(deletingId)
      ensures confirmed ==> error == "" && deletingId == Some(id)
      ensures showAddForm == old(showAddForm) && editingLesson == old(editingLesson)
      ensures expandedLesson == old(expandedLesson)
    {
      requested := confirmed;
      if confirmed {
        error := "";
        deletingId := Some(id);
      }
    }

    /**
     * The delete request's outcome: success reloads the list, failure shows
     * the delete message; in both cases no lesson is marked as being deleted
     * any more.
     */
    method FinishDelete(succeeded: bool) returns (changed: bool)
      modifies this
      requires Valid()
      ensures Valid()
      ensures changed <==> succeeded
      ensures deletingId == None
      ensures error == if succeeded then old(error) else DeleteFailed
      ensures showAddForm == old(showAddForm) && editingLesson == old(editingLesson)
      ensures expandedLesson == old(expandedLesson)
    {
      changed := succeeded;
      if !succeeded {
        error := DeleteFailed;
      }
      deletingId := None;
    }

    /**
     * A whole delete: `during` is the lesson marked as being deleted while the
     * request runs. A declined confirmation makes no request and changes
     * nothing; otherwise the mark is the lesson's id during the request and
     * is gone afterwards whatever the outcome.
     */
    method DeleteLesson(id: int, confirmed: bool, succeeded: bool)
      returns (during: Option<int>, changed: bool)
      modifies this
      requires Valid()
      ensures Valid()
      ensures !confirmed ==> !changed && error == old(error) && deletingId == old(deletingId)
      ensures confirmed ==> during == Some(id) && deletingId == None
      ensures confirmed ==> (changed <==> succeeded) && error == (if succeeded then "" else DeleteFailed)
      ensures showAddForm == old(showAddForm) && editingLesson == old(editingLesson)
      ensures expandedLesson == old(expandedLesson)
    {
      var requested := BeginDelete(id, confirmed);
      during := deletingId;
      changed := false;
      if requested {
        changed := FinishDelete(succeeded);
      }
    }

    /**
     * What the list shows for the given lessons. The add button needs an
     * admin and a closed add form; the error banner shows a non-empty error;
     * there is one row per lesson, in display order; the empty message
     * appears exactly when there are no lessons, even with the add form open.
     */
    function View(lessons: seq<Lesson>, isAdmin: bool): (v: LessonListView)
      reads this
      ensures v.addButton <==> isAdmin && !showAddForm
      ensures v.errorBanner == (if error == "" then None else Some(error))
      ensures v.addForm == showAddForm
      ensures v.emptyMessage.Some? <==> |lessons| == 0
      ensures v.emptyMessage.Some? ==> v.emptyMessage.value == EmptyMessage && v.rows == []
      ensures |v.rows| == |lessons|
      ensures forall i :: 0 <= i < |v.rows| ==> v.rows[i].lesson == SortedLessons(lessons)[i]
      ensures forall i :: 0 <= i < |v.rows| ==>
        (v.rows[i].EditRow? <==> editingLesson.Some? && editingLesson.value.id == v.rows[i].lesson.id)
      ensures forall i :: 0 <= i < |v.rows| && v.rows[i].DisplayRow? ==>
        (v.rows[i].expanded <==> expandedLesson == Some(v.rows[i].lesson.id)) &&
        (v.rows[i].actions <==> v.rows[i].expanded && isAdmin) &&
        (v.rows[i].deleting <==> deletingId == Some(v.rows[i].lesson.id))
    {
      var sorted := SortedLessons(lessons);
      LessonListView(
        isAdmin && !showAddForm,
        if error == "" then None else Some(error),
        showAddForm,
        Rows(sorted, isAdmin, editingLesson, expandedLesson, deletingId),
        if |sorted| == 0 then Some(EmptyMessage) else None)
    }
  }

  /**
   * With distinct lesson ids (they are the rows' keys), at most one row is
   * expanded and at most one row is the edit form.
   */
  lemma {:induction false} SingleExpandedRow(state: LessonListState, lessons: seq<Lesson>, isAdmin: bool, i: nat, j: nat)
    requires StableSort.DistinctKeys(lessons, IdOf)
    requires i < j < |state.View(lessons, isAdmin).rows|
    ensures !(state.View(lessons, isAdmin).rows[i].DisplayRow? && state.View(lessons, isAdmin).rows[i].expanded &&
              state.View(lessons, isAdmin).rows[j].DisplayRow? && state.View(lessons, isAdmin).rows[j].expanded)
    ensures !(state.View(lessons, isAdmin).rows[i].EditRow? && state.View(lessons, isAdmin).rows[j].EditRow?)
  {
    var sorted := SortedLessons(lessons);
    StableSort.PermutationKeepsDistinctKeys(sorted, lessons, IdOf);
    assert IdOf(sorted[i]) != IdOf(sorted[j]);
  }
}
