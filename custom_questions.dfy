/**
 * The custom-questions screen (`app/Components/CustomQuestions/page.tsx`):
 * the subject filter over the fetched questions, the subject picker that
 * loads that subject's topics, and the guard in front of the create
 * mutation. Query results are `None` while absent.
 */
module CustomQuestions {
  import opened Common

  datatype Topic = Topic(id: int, name: string)
  datatype Subject = Subject(id: int, name: string, topics: seq<Topic>)
  datatype CustomQuestion = CustomQuestion(id: int, description: string, subjectId: int, topicIds: seq<int>)

  /** A selected subject id is truthy when present and non-zero. */
  predicate Selected(subjectId: Option<int>) {
    subjectId.Some? && subjectId.value != 0
  }

  predicate OfSubject(q: CustomQuestion, subjectId: int) {
    q.subjectId == subjectId
  }

  /**
   * `filteredQuestions`: nothing without data, everything without a
   * selected subject, and otherwise exactly the questions of the selected
   * subject, in their order.
   */
  function FilteredQuestions(data: Option<seq<CustomQuestion>>, selected: Option<int>): (r: seq<CustomQuestion>)
    ensures data.None? ==> r == []
    ensures data.Some? && !Selected(selected) ==> r == data.value
    ensures data.Some? && Selected(selected) ==>
      && IsSubsequence(r, data.value)
      && (forall i :: 0 <= i < |r| ==> r[i].subjectId == selected.value)
      && (forall i :: 0 <= i < |data.value| && data.value[i].subjectId == selected.value ==> data.value[i] in r)
      && (forall q :: multiset(r)[q] == (if q.subjectId == selected.value then multiset(data.value)[q] else 0))
  {
    if data.None? then []
    else if !Selected(selected) then data.value
    else
      FilterCount(data.value, q => OfSubject(q, selected.value));
      Filter(data.value, q => OfSubject(q, selected.value))
  }

  /** Filtering the filtered list again with the same selection changes nothing. */
  lemma FilterIdempotent(data: Option<seq<CustomQuestion>>, selected: Option<int>)
    ensures FilteredQuestions(Some(FilteredQuestions(data, selected)), selected) == FilteredQuestions(data, selected)
  {
    if data.Some? && Selected(selected) {
      FilterAll(FilteredQuestions(data, selected), q => OfSubject(q, selected.value));
    }
  }

  /** The first subject with the given id, as `find` returns it. */
  function FindSubject(subjects: seq<Subject>, id: int): (r: Option<Subject>)
    ensures r.Some? ==> r.value in subjects && r.value.id == id
    ensures r.None? ==> forall s :: s in subjects ==> s.id != id
  {
    if subjects == [] then None
    else if subjects[0].id == id then Some(subjects[0])
    else FindSubject(subjects[1..], id)
  }

  /** The form-related state of the screen. */
  datatype FormState = FormState(selectedSubject: Option<int>, topicsForSubject: seq<Topic>, topicIds: seq<int>)

  /**
   * `handleSubjectChange`: records the selection, loads the topics of the
   * chosen subject (none when no subject is chosen, the subjects are not
   * loaded, or no subject has that id), and clears the chosen topics.
   */
  function HandleSubjectChange(state: FormState, subjectId: Option<int>, subjects: Option<seq<Subject>>): (r: FormState)
    ensures r.selectedSubject == subjectId && r.topicIds == []
    ensures Selected(subjectId) && subjects.Some? && FindSubject(subjects.value, subjectId.value).Some? ==>
      r.topicsForSubject == FindSubject(subjects.value, subjectId.value).value.topics
    ensures !Selected(subjectId) || subjects.None? || FindSubject(subjects.value, subjectId.value).None? ==>
      r.topicsForSubject == []
  {
    var topics :=
      if Selected(subjectId) && subjects.Some? then
        var found := FindSubject(subjects.value, subjectId.value);
        if found.Some? then found.value.topics else []
      else [];
    FormState(subjectId, topics, [])
  }

  /** The topics loaded for a subject are that subject's own, whatever the previous state. */
  lemma SubjectTopicsBelongToSubject(state: FormState, subjectId: Option<int>, subjects: seq<Subject>)
    ensures var r := HandleSubjectChange(state, subjectId, Some(subjects));
      r.topicsForSubject != [] ==> exists s :: s in subjects && s.id == subjectId.value && s.topics == r.topicsForSubject
  {
    var r := HandleSubjectChange(state, subjectId, Some(subjects));
    if r.topicsForSubject != [] {
      var s := FindSubject(subjects, subjectId.value).value;
      assert s in subjects && s.id == subjectId.value;
    }
  }

  /** The create form's values; an untouched field is `None`. */
  datatype FormValues = FormValues(description: Option<string>, subjectId: Option<int>, topicIds: Option<seq<int>>)

  datatype CreateInput = CreateInput(description: Option<string>, subjectId: Option<int>, topicIds: seq<int>)

  /**
   * `handleSubmit`: the mutation's input, or `None` when no mutation is
   * issued because the user is not signed in. Untouched topics are sent as
   * an empty list.
   */
  function HandleSubmit(hasSession: bool, status: string, values: FormValues): (r: Option<CreateInput>)
    ensures r.Some? <==> hasSession && status == "authenticated"
    ensures r.Some? ==> r.value.description == values.description && r.value.subjectId == values.subjectId
    ensures r.Some? && values.topicIds.Some? ==> r.value.topicIds == values.topicIds.value
    ensures r.Some? && values.topicIds.None? ==> r.value.topicIds == []
  {
    if !hasSession || status != "authenticated" then None
    else Some(CreateInput(values.description, values.subjectId, values.topicIds.GetOr([])))
  }
}
