/**
 * The quiz editor (`EditQuiz`): the list of selected question ids that the
 * Save button sends, its toggle and its update after a deletion, the choice
 * between the regular and the custom question lists, and the page of ten
 * questions shown.
 */
module EditQuiz {
  import opened Common

  const PageSize := 10

  /** A question row of the quiz or of the available lists (only its id matters here). */
  datatype QuestionRow = QuestionRow(id: nat)

  /** `availableQuestionsData`: either list may be missing. */
  datatype AvailableData = AvailableData(questions: Option<seq<QuestionRow>>, customQuestions: Option<seq<QuestionRow>>)

  /** The ids of a list of rows, in order. */
  function Ids(rows: seq<QuestionRow>): (r: seq<nat>)
    ensures |r| == |rows|
    ensures forall i :: 0 <= i < |r| ==> r[i] == rows[i].id
  {
    if rows == [] then [] else [rows[0].id] + Ids(rows[1..])
  }

  /** The selection once the quiz has loaded: its questions' ids, in order. */
  function InitialSelection(quizQuestions: seq<QuestionRow>): (r: seq<nat>)
    ensures |r| == |quizQuestions| && forall i :: 0 <= i < |r| ==> r[i] == quizQuestions[i].id
  {
    Ids(quizQuestions)
  }

  /** `prev.filter(id => id !== questionId)`. */
  function Without(selection: seq<nat>, questionId: nat): (r: seq<nat>)
    ensures questionId !in r
    ensures IsSubsequence(r, selection)
    ensures forall i :: 0 <= i < |selection| && selection[i] != questionId ==> selection[i] in r
    ensures forall i :: 0 <= i < |r| ==> r[i] in selection
    ensures forall x :: multiset(r)[x] == (if x == questionId then 0 else multiset(selection)[x])
  {
    FilterCount(selection, id => id != questionId);
    Filter(selection, id => id != questionId)
  }

  /** `handleQuestionSelect`: a selected id is removed everywhere, an unselected one appended. */
  function Toggle(selection: seq<nat>, questionId: nat): (r: seq<nat>)
    ensures questionId in selection ==> r == Without(selection, questionId)
    ensures questionId !in selection ==> |r| == |selection| + 1 && r[..|selection|] == selection && r[|selection|..] == [questionId]
    ensures questionId in r <==> questionId !in selection
  {
    if questionId in selection then Without(selection, questionId)
    else selection + [questionId]
  }

  /** Removing an id that is not selected changes nothing. */
  lemma WithoutAbsent(selection: seq<nat>, questionId: nat)
    requires questionId !in selection
    ensures Without(selection, questionId) == selection
  {
    FilterAll(selection, id => id != questionId);
  }

  /** Toggling an unselected id twice gives back the selection. */
  lemma {:induction false} ToggleTwiceRestores(selection: seq<nat>, questionId: nat)
    requires questionId !in selection
    ensures Toggle(Toggle(selection, questionId), questionId) == selection
  {
    var p := (id: nat) => id != questionId;
    FilterAppend(selection, [questionId], p);
    FilterAll(selection, p);
    assert Filter([questionId], p) == [];
  }

  /**
   * Toggling a selected id twice moves it to the end and keeps one copy of
   * it: the order of the other ids is kept.
   */
  lemma ToggleTwiceMovesToEnd(selection: seq<nat>, questionId: nat)
    requires questionId in selection
    ensures Toggle(Toggle(selection, questionId), questionId) == Without(selection, questionId) + [questionId]
  {
  }

  /**
   * `handleDeleteQuestion`: once the mutation call returns (its own error
   * handler catches a failure), the id leaves the selection and every
   * other id stays, as often as before and in its order; a thrown call
   * leaves the selection as it was.
   */
  function SelectionAfterDelete(selection: seq<nat>, questionId: nat, threw: bool): (r: seq<nat>)
    ensures threw ==> r == selection
    ensures !threw ==> r == Without(selection, questionId)
    ensures !threw ==> questionId !in r && IsSubsequence(r, selection)
    ensures !threw ==> forall x :: x != questionId ==> multiset(r)[x] == multiset(selection)[x]
  {
    if threw then selection else Without(selection, questionId)
  }

  /** The list offered for adding: regular questions on the 'regular' tab, custom ones otherwise. */
  function SourceList(activeTab: string, data: Option<AvailableData>): (r: seq<QuestionRow>)
    ensures data.None? ==> r == []
    ensures data.Some? && activeTab == "regular" ==> r == data.value.questions.GetOr([])
    ensures data.Some? && activeTab != "regular" ==> r == data.value.customQuestions.GetOr([])
  {
    if data.None? then []
    else if activeTab == "regular" then data.value.questions.GetOr([])
    else data.value.customQuestions.GetOr([])
  }

  /** The rows on page `currentPage`: `slice((p - 1) * 10, (p - 1) * 10 + 10)`. */
  function PageSlice<T>(rows: seq<T>, currentPage: int): seq<T> {
    JsSlice(rows, (currentPage - 1) * PageSize, (currentPage - 1) * PageSize + PageSize)
  }

  /**
   * A page never holds more than ten rows; from page 1 on it is the window
   * of ten rows starting at `(p - 1) * 10`, clipped to the list.
   */
  lemma PageSliceWindow<T>(rows: seq<T>, currentPage: int)
    ensures |PageSlice(rows, currentPage)| <= PageSize
    ensures currentPage >= 1 ==>
      var start := (currentPage - 1) * PageSize;
      PageSlice(rows, currentPage) == rows[Min(start, |rows|)..Min(start + PageSize, |rows|)]
  {
    if currentPage >= 1 {
      JsSliceWindow(rows, (currentPage - 1) * PageSize, (currentPage - 1) * PageSize + PageSize);
    }
  }

  /** Consecutive pages are adjacent: together they are one window of twenty rows. */
  lemma {:induction false} ConsecutivePagesAdjacent<T>(rows: seq<T>, currentPage: int)
    requires currentPage >= 1
    ensures var start := (currentPage - 1) * PageSize;
      PageSlice(rows, currentPage) + PageSlice(rows, currentPage + 1)
        == rows[Min(start, |rows|)..Min(start + 2 * PageSize, |rows|)]
  {
    PageSliceWindow(rows, currentPage);
    PageSliceWindow(rows, currentPage + 1);
    var start := (currentPage - 1) * PageSize;
    var a, b, c := Min(start, |rows|), Min(start + PageSize, |rows|), Min(start + 2 * PageSize, |rows|);
    assert rows[a..b] + rows[b..c] == rows[a..c];
  }
}
