/**
 * The quiz list (`QuizzesList`): the label and gating of the start button,
 * the restart path that clears `finished_at` before re-entering a quiz, the
 * mapping from the two list queries to the quizzes shown, the per-quiz
 * button predicates, and the rubric dialog.
 *
 * Router pushes, toasts and GraphQL mutations are recorded as `ListEffect`s;
 * what a mutation answers is a parameter.
 */
module QuizzesList {
  import opened Common

  datatype QuizType = Regular | Assigned

  /**
   * A quiz row as the list queries return it. The REGULAR query does not
   * fetch `type` and the ASSIGNED query does not fetch `quizOwnedBy`, so
   * both are optional; timestamps are abstract instants, absent when null.
   */
  datatype Quiz = Quiz(
    id: nat,
    startTime: Option<nat>,
    finishedAt: Option<nat>,
    kind: Option<QuizType>,
    quizOwnedBy: Option<nat>)

  /** One row of `assignedQuizzes`: the assignment and its quiz. */
  datatype AssignedQuizData = AssignedQuizData(id: nat, quizzes: Quiz)

  /** The query result; either list may be missing from it. */
  datatype ListData = ListData(userQuizzes: Option<seq<Quiz>>, assignedQuizzes: Option<seq<AssignedQuizData>>)

  datatype ListEffect =
    | Warn(text: string)
    | ShowError(text: string)
    | ShowSuccess(text: string)
    | ResetFinishedAtCall(quizId: nat)
    | SetQuizRubricCall(quizId: nat, rubricType: string, customRubric: Option<string>)
    | NavigateTo(path: string)

  /** How the `resetQuizFinishedAt` mutation ended. */
  datatype ResetResult =
    | ResetDone
    | ResetErrorHandled   // the `onError` callback ran; the promise still resolves
    | ResetThrew          // the call threw: the catch block returns

  const StartLabel := "Start Quiz"
  const ResumeLabel := "Resume Quiz"
  const RestartLabel := "Restart Quiz"
  const AlreadySubmittedWarning := "This assigned quiz has already been submitted"
  const ResetFailedMessage := "Failed to reset quiz"
  const RubricSavedMessage := "Rubric settings saved successfully"
  const RubricFailedMessage := "Failed to save rubric settings"

  // ---------------------------------------------------------------------------
  // Labels and gating
  // ---------------------------------------------------------------------------

  /** `getQuizButtonText`. */
  function QuizButtonText(q: Quiz): string {
    if q.startTime.None? then StartLabel
    else if q.finishedAt.None? then ResumeLabel
    else RestartLabel
  }

  /** The three labels are distinct and each is chosen by exactly one state of the timestamps. */
  lemma ButtonTextCases(q: Quiz)
    ensures QuizButtonText(q) == StartLabel <==> q.startTime.None?
    ensures QuizButtonText(q) == ResumeLabel <==> q.startTime.Some? && q.finishedAt.None?
    ensures QuizButtonText(q) == RestartLabel <==> q.startTime.Some? && q.finishedAt.Some?
  {
    assert StartLabel[0] == 'S' && ResumeLabel[0] == 'R' && RestartLabel[2] == 's' && ResumeLabel[2] == 's';
    assert ResumeLabel[1] == 'e' && RestartLabel[1] == 'e' && ResumeLabel[3] != RestartLabel[3];
  }

  /** `isQuizRestartable`. */
  predicate IsRestartable(listType: QuizType, q: Quiz) {
    listType == Regular && q.finishedAt.Some?
  }

  /**
   * On the REGULAR list the Restart label only appears on a restartable
   * quiz; a finished quiz is restartable there even if it was never started.
   */
  lemma RestartLabelOnlyWhenRestartable(q: Quiz)
    ensures QuizButtonText(q) == RestartLabel ==> IsRestartable(Regular, q)
    ensures IsRestartable(Regular, q) && q.startTime.Some? ==> QuizButtonText(q) == RestartLabel
    ensures !IsRestartable(Assigned, q)
  {
    ButtonTextCases(q);
  }

  /** The refusal in `handleStartQuiz`: an ASSIGNED quiz that was started and finished. */
  predicate AlreadySubmitted(q: Quiz) {
    q.kind == Some(Assigned) && q.startTime.Some? && q.finishedAt.Some?
  }

  /** The student's start button is disabled on the ASSIGNED list once both timestamps are set. */
  predicate StartDisabled(listType: QuizType, q: Quiz) {
    q.startTime.Some? && q.finishedAt.Some? && listType == Assigned
  }

  /**
   * The button's disabled state and the handler's refusal agree on ASSIGNED
   * quizzes shown on the ASSIGNED list; on the REGULAR list, whose rows carry
   * no type, the handler never refuses and the button is never disabled.
   */
  lemma StartGatingAgrees(q: Quiz)
    ensures q.kind == Some(Assigned) ==> (StartDisabled(Assigned, q) <==> AlreadySubmitted(q))
    ensures q.kind.None? ==> !AlreadySubmitted(q) && !StartDisabled(Regular, q)
  {
  }

  /** The compiler page for a quiz. */
  function CompilerPath(quizId: nat): (p: string)
    ensures |p| > |"/compiler?quizId="| && p[..|"/compiler?quizId="|] == "/compiler?quizId="
    ensures AllDigits(p[|"/compiler?quizId="|..])
    ensures DecimalValue(p[|"/compiler?quizId="|..]) == quizId
  {
    var digits := NatToString(quizId);
    var p := "/compiler?quizId=" + digits;
    assert p[|"/compiler?quizId="|..] == digits;
    p
  }

  /**
   * `handleStartQuiz`: no quiz does nothing; a submitted ASSIGNED quiz is
   * refused with a warning; a quiz labelled Restart first has `finished_at`
   * reset, a reset whose error handler ran shows the error toast, and only
   * a thrown reset stops the navigation to the compiler.
   */
  method HandleStartQuiz(quiz: Option<Quiz>, reset: ResetResult) returns (effects: seq<ListEffect>)
    ensures quiz.None? ==> effects == []
    ensures quiz.Some? && AlreadySubmitted(quiz.value) ==> effects == [Warn(AlreadySubmittedWarning)]
    ensures quiz.Some? && !AlreadySubmitted(quiz.value) ==>
      var q := quiz.value;
      var restart := QuizButtonText(q) == RestartLabel;
      && effects == (if restart then [ResetFinishedAtCall(q.id)] else [])
                    + (if restart && reset == ResetErrorHandled then [ShowError(ResetFailedMessage)] else [])
                    + (if restart && reset == ResetThrew then [] else [NavigateTo(CompilerPath(q.id))])
      && (ResetFinishedAtCall(q.id) in effects <==> restart)
      && (NavigateTo(CompilerPath(q.id)) in effects <==> !(restart && reset == ResetThrew))
      && Warn(AlreadySubmittedWarning) !in effects
  {
    effects := [];
    if quiz.None? {
      return;
    }
    var q := quiz.value;
    if q.kind == Some(Assigned) && q.startTime.Some? && q.finishedAt.Some? {
      effects := effects + [Warn(AlreadySubmittedWarning)];
      return;
    }
    if QuizButtonText(q) == RestartLabel {
      effects := effects + [ResetFinishedAtCall(q.id)];
      if reset == ResetThrew {
        return;
      }
      if reset == ResetErrorHandled {
        effects := effects + [ShowError(ResetFailedMessage)];
      }
    }
    effects := effects + [NavigateTo(CompilerPath(q.id))];
  }

  // ---------------------------------------------------------------------------
  // The list shown
  // ---------------------------------------------------------------------------

  /** `assignedQuizzes.map(a => a.quizzes)`. */
  function QuizzesOf(assignments: seq<AssignedQuizData>): (r: seq<Quiz>)
    ensures |r| == |assignments|
    ensures forall i :: 0 <= i < |r| ==> r[i] == assignments[i].quizzes
  {
    if assignments == [] then []
    else [assignments[0].quizzes] + QuizzesOf(assignments[1..])
  }

  /** The quizzes rendered: the ASSIGNED list unwraps each assignment, any other list takes `userQuizzes`. */
  function DisplayedQuizzes(listType: QuizType, data: Option<ListData>): (r: seq<Quiz>)
    ensures data.None? ==> r == []
    ensures data.Some? && listType == Assigned ==>
      && (data.value.assignedQuizzes.None? ==> r == [])
      && (data.value.assignedQuizzes.Some? ==>
            |r| == |data.value.assignedQuizzes.value|
            && forall i :: 0 <= i < |r| ==> r[i] == data.value.assignedQuizzes.value[i].quizzes)
    ensures data.Some? && listType == Regular ==> r == data.value.userQuizzes.GetOr([])
  {
    if data.None? then []
    else if listType == Assigned then
      match data.value.assignedQuizzes
      case None => []
      case Some(a) => QuizzesOf(a)
    else data.value.userQuizzes.GetOr([])
  }

  // ---------------------------------------------------------------------------
  // Per-quiz buttons
  // ---------------------------------------------------------------------------

  /** The Assign button: only where the list asks for it and only for a teacher. */
  predicate AssignVisible(showAssignButton: bool, role: Option<string>) {
    showAssignButton && role == Some("TEACHER")
  }

  /** Show Details is disabled for a student's unfinished assigned quiz. */
  predicate DetailsDisabled(listType: QuizType, role: Option<string>, q: Quiz) {
    listType == Assigned && role == Some("STUDENT") && q.finishedAt.None?
  }

  /** Edit Quiz: a teacher, or the owner (the session id, `"0"` when absent). */
  predicate EditVisible(role: Option<string>, sessionUserId: Option<nat>, q: Quiz) {
    role == Some("TEACHER") || q.quizOwnedBy == Some(sessionUserId.GetOr(0))
  }

  /** The start/resume/restart button is rendered for students only. */
  predicate StartVisible(role: Option<string>) {
    role == Some("STUDENT")
  }

  predicate DeleteVisible(listType: QuizType) {
    listType == Regular
  }

  /** Set Rubric: the signed-in user owns the quiz. */
  predicate RubricVisible(userId: nat, q: Quiz) {
    q.quizOwnedBy == Some(userId)
  }

  /**
   * Rows of the ASSIGNED list carry no owner, so there neither Delete nor Set
   * Rubric is offered and only a teacher sees Edit; a student's start button
   * is disabled exactly on the rows whose details are viewable and started.
   */
  lemma AssignedListButtons(role: Option<string>, sessionUserId: Option<nat>, userId: nat, q: Quiz)
    requires q.quizOwnedBy.None?
    ensures !DeleteVisible(Assigned) && !RubricVisible(userId, q)
    ensures EditVisible(role, sessionUserId, q) <==> role == Some("TEACHER")
    ensures StartVisible(role) && q.startTime.Some? ==>
      (StartDisabled(Assigned, q) <==> !DetailsDisabled(Assigned, role, q))
  {
  }

  // ---------------------------------------------------------------------------
  // The rubric dialog
  // ---------------------------------------------------------------------------

  /** The custom rubric text travels only with the "custom" type; otherwise null. */
  function RubricArgument(rubricType: string, customRubric: string): (r: Option<string>)
    ensures r.Some? <==> rubricType == "custom"
    ensures r.Some? ==> r.value == customRubric
  {
    if rubricType == "custom" then Some(customRubric) else None
  }

  /** The Set Rubric modal and the quiz it was opened for. */
  class RubricDialog {
    var currentQuizId: Option<nat>
    var modalVisible: bool
    var selectedRubricType: string
    var customRubric: string
    var effects: seq<ListEffect>

    constructor ()
      ensures currentQuizId == None && !modalVisible
      ensures selectedRubricType == "default" && customRubric == ""
      ensures effects == []
    {
      currentQuizId := None;
      modalVisible := false;
      selectedRubricType := "default";
      customRubric := "";
      effects := [];
    }

    /** `handleSetRubric`: remembers the quiz and opens the modal; the choices are kept. */
    method Open(quizId: nat)
      modifies this`currentQuizId, this`modalVisible
      ensures currentQuizId == Some(quizId) && modalVisible
    {
      currentQuizId := Some(quizId);
      modalVisible := true;
    }

    method SelectType(rubricType: string)
      modifies this`selectedRubricType
      ensures selectedRubricType == rubricType
    {
      selectedRubricType := rubricType;
    }

    method EditCustomRubric(text: string)
      modifies this`customRubric
      ensures customRubric == text
    {
      customRubric := text;
    }

    /**
     * `saveRubric`: with no quiz (or quiz id 0, which is falsy) nothing
     * happens; otherwise the mutation is sent and the modal closes only when
     * it succeeds.
     */
    method Save(mutationOk: bool)
      modifies this`effects, this`modalVisible
      ensures currentQuizId.None? || currentQuizId == Some(0) ==>
        effects == old(effects) && modalVisible == old(modalVisible)
      ensures currentQuizId.Some? && currentQuizId.value != 0 ==>
        var call := SetQuizRubricCall(currentQuizId.value, selectedRubricType,
                                      RubricArgument(selectedRubricType, customRubric));
        && effects == old(effects) + [call] + [if mutationOk then ShowSuccess(RubricSavedMessage)
                                              else ShowError(RubricFailedMessage)]
        && modalVisible == (if mutationOk then false else old(modalVisible))
    {
      if currentQuizId.None? || currentQuizId.value == 0 {
        return;
      }
      effects := effects + [SetQuizRubricCall(currentQuizId.value, selectedRubricType,
                                              RubricArgument(selectedRubricType, customRubric))];
      if mutationOk {
        effects := effects + [ShowSuccess(RubricSavedMessage)];
        modalVisible := false;
      } else {
        effects := effects + [ShowError(RubricFailedMessage)];
      }
    }
  }
}
