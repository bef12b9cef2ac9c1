/**
 * The quiz-taking page (app/compiler/page.tsx): one student's timed attempt
 * at one quiz. The page keeps its state in React hooks; here that state is
 * the fields of a `Session` object, and every handler is a method that
 * updates them. Calls to other services (start/finish mutations, the code
 * runner, the evaluation endpoint, router navigation) are appended to an
 * `effects` log; their answers are parameters of the handler that awaits them.
 */
module QuizSession {
  import opened Common

  /** A question of the quiz as the page loads it. */
  datatype Question = Question(id: nat, description: string, difficulty: string)

  /** One entry of the batch sent for evaluation when the quiz is finished. */
  datatype EvaluationRequest =
    EvaluationRequest(questionId: nat, questionText: string, code: string, language: string)

  /** What the page asks of the outside world, in the order it asks. */
  datatype Effect =
    | StartQuizCall(quizId: nat)
    | FinishQuizCall(quizId: nat)
    | RunRequest(code: string, language: string, input: string)
    | EvaluateCall(quizId: nat, submissions: seq<EvaluationRequest>, ownerEmail: string, language: string)
    | Navigate(path: string)

  /** The answer of the compile endpoint to one Run. */
  datatype RunResponse =
    | RunOk(stdout: string, stderr: string)   // 2xx with the runner's output
    | RunHttpError(error: string)             // non-2xx; `error` is "" when the body has none
    | RunThrew(message: string)               // the request itself failed

  datatype SubmitOutcome = EmptyCode | NoQuestion | Submitted

  datatype EvaluationOutcome =
    | NothingToEvaluate   // no submissions: warning, nothing sent
    | OwnerUnknown        // owner e-mail not known: error, nothing sent
    | EvaluationFailed    // the evaluation endpoint answered non-2xx
    | Evaluated           // evaluated; finishQuiz issued

  datatype FinishOutcome = Declined | FinishedWithoutSubmissions | Evaluation(result: EvaluationOutcome)

  const UnknownQuestionText := "Unknown question"
  const QuizzesTabPath := "/Practise?tab=quizzes"

  // ---------------------------------------------------------------------------
  // formatTime
  // ---------------------------------------------------------------------------

  /** `formatTime`: seconds as `HH:MM:SS`, each part at least two digits. */
  function FormatTime(seconds: nat): string {
    var hrs := seconds / 3600;
    var mins := (seconds % 3600) / 60;
    var secs := seconds % 60;
    PadStart2(NatToString(hrs)) + ":" + PadStart2(NatToString(mins)) + ":" + PadStart2(NatToString(secs))
  }

  lemma NatToStringBelow100(n: nat)
    requires n < 100
    ensures |NatToString(n)| <= 2
  {
    if n >= 10 {
      assert NatToString(n / 10) == [DigitChar(n / 10)];
    }
  }

  /** Adding whole minutes does not change the seconds field. */
  lemma {:induction false} SecondsOfWholeMinutes(k: nat, t: nat)
    requires t < 60
    ensures (60 * k + t) % 60 == t
  {
    if k > 0 {
      SecondsOfWholeMinutes(k - 1, t);
      assert 60 * k + t == (60 * (k - 1) + t) + 60;
    }
  }

  /** The three fields `formatTime` computes recombine to the input. */
  lemma ClockArithmetic(seconds: nat)
    ensures (seconds % 3600) / 60 < 60 && seconds % 60 < 60
    ensures (seconds / 3600) * 3600 + ((seconds % 3600) / 60) * 60 + seconds % 60 == seconds
  {
    var q, r := seconds / 3600, seconds % 3600;
    assert seconds == 3600 * q + r;
    var m, t := r / 60, r % 60;
    assert r == 60 * m + t && 0 <= t < 60;
    assert seconds == 60 * (60 * q + m) + t;
    SecondsOfWholeMinutes(60 * q + m, t);
  }

  /**
   * The clock read back: the three colon-separated fields of `FormatTime(s)`
   * are digit strings of at least two characters whose values are hours,
   * minutes below 60 and seconds below 60 adding up to `s`; minutes and
   * seconds are exactly two digits.
   */
  lemma FormatTimeFields(seconds: nat) returns (h: string, m: string, s: string)
    ensures FormatTime(seconds) == h + ":" + m + ":" + s
    ensures AllDigits(h) && AllDigits(m) && AllDigits(s)
    ensures |h| >= 2 && |m| == 2 && |s| == 2
    ensures DecimalValue(m) < 60 && DecimalValue(s) < 60
    ensures DecimalValue(h) * 3600 + DecimalValue(m) * 60 + DecimalValue(s) == seconds
  {
    var hrs, mins, secs := seconds / 3600, (seconds % 3600) / 60, seconds % 60;
    ClockArithmetic(seconds);
    h, m, s := PadStart2(NatToString(hrs)), PadStart2(NatToString(mins)), PadStart2(NatToString(secs));
    PadStart2Value(NatToString(hrs));
    PadStart2Value(NatToString(mins));
    PadStart2Value(NatToString(secs));
    NatToStringBelow100(mins);
    NatToStringBelow100(secs);
    assert DecimalValue(h) == hrs && DecimalValue(m) == mins && DecimalValue(s) == secs;
  }

  // ---------------------------------------------------------------------------
  // The evaluation batch
  // ---------------------------------------------------------------------------

  /** JavaScript's `String.prototype.trim` removes exactly these characters. */
  predicate IsJsWhitespace(c: char) {
    c in {'\t', '\n', '\U{B}', '\U{C}', '\r', ' ', '\U{A0}', '\U{1680}', '\U{2000}', '\U{2001}',
          '\U{2002}', '\U{2003}', '\U{2004}', '\U{2005}', '\U{2006}', '\U{2007}', '\U{2008}',
          '\U{2009}', '\U{200A}', '\U{2028}', '\U{2029}', '\U{202F}', '\U{205F}', '\U{3000}', '\U{FEFF}'}
  }

  /** `!s.trim()`: the code is empty once surrounding whitespace is removed. */
  predicate IsBlank(s: string) {
    forall i :: 0 <= i < |s| ==> IsJsWhitespace(s[i])
  }

  /** Every stored submission has some non-whitespace character. */
  predicate NoBlankSubmission(submissions: map<nat, string>) {
    forall id :: id in submissions ==> !IsBlank(submissions[id])
  }

  /** `questions.find(q => q.id === id)`. */
  function FindQuestion(questions: seq<Question>, id: nat): (r: Option<Question>)
    ensures r.Some? ==> r.value in questions && r.value.id == id
    ensures r.None? <==> forall i :: 0 <= i < |questions| ==> questions[i].id != id
  {
    if questions == [] then None
    else if questions[0].id == id then Some(questions[0])
    else FindQuestion(questions[1..], id)
  }

  /** `question?.description || "Unknown question"`. */
  function QuestionText(questions: seq<Question>, id: nat): string {
    match FindQuestion(questions, id)
    case Some(q) => if q.description != "" then q.description else UnknownQuestionText
    case None => UnknownQuestionText
  }

  /** `m` is the least element of `ks`. */
  predicate IsLeast(m: nat, ks: set<nat>) {
    m in ks && forall k :: k in ks ==> m <= k
  }

  lemma {:induction false} HasMinimum(ks: set<nat>)
    requires ks != {}
    ensures exists m :: IsLeast(m, ks)
    decreases ks
  {
    var x :| x in ks;
    if ks == {x} {
      assert IsLeast(x, ks);
    } else {
      var rest := ks - {x};
      HasMinimum(rest);
      var m :| IsLeast(m, rest);
      var least := if x < m then x else m;
      forall k | k in ks
        ensures least <= k
      {
        if k != x {
          assert k in rest;
        }
      }
      assert IsLeast(least, ks);
    }
  }

  function MinId(ks: set<nat>): (m: nat)
    requires ks != {}
    ensures IsLeast(m, ks)
  {
    HasMinimum(ks);
    var m :| IsLeast(m, ks);
    m
  }

  /**
   * The keys of a JavaScript object whose keys are non-negative integers,
   * in the order `Object.entries` visits them: ascending.
   */
  function SortedIds(ks: set<nat>): (r: seq<nat>)
    ensures SortedListing(r, ks)
    decreases |ks|
  {
    if ks == {} then []
    else
      var m := MinId(ks);
      var rest := SortedIds(ks - {m});
      LeastThenRest(m, ks, rest);
      [m] + rest
  }

  /** `r` lists the elements of `ks`, each once, in ascending order. */
  predicate SortedListing(r: seq<nat>, ks: set<nat>) {
    && |r| == |ks|
    && (forall i :: 0 <= i < |r| ==> r[i] in ks)
    && (forall k :: k in ks ==> k in r)
    && (forall i, j :: 0 <= i < j < |r| ==> r[i] < r[j])
  }

  /** The least element followed by a listing of the others is a listing of the whole set. */
  lemma LeastThenRest(m: nat, ks: set<nat>, rest: seq<nat>)
    requires IsLeast(m, ks) && SortedListing(rest, ks - {m})
    ensures SortedListing([m] + rest, ks)
  {
    var r := [m] + rest;
    assert |ks - {m}| == |ks| - 1;
    forall k | k in ks
      ensures k in r
    {
      if k != m {
        assert k in ks - {m};
      }
    }
    forall i, j | 0 <= i < j < |r|
      ensures r[i] < r[j]
    {
      assert r[j] == rest[j - 1] && rest[j - 1] in ks - {m};
      if i > 0 {
        assert r[i] == rest[i - 1];
      }
    }
  }

  /** One request per id of `ids`, in the same order. */
  function RequestsFor(ids: seq<nat>, submissions: map<nat, string>, questions: seq<Question>, language: string)
    : (r: seq<EvaluationRequest>)
    requires forall i :: 0 <= i < |ids| ==> ids[i] in submissions
    ensures |r| == |ids|
    ensures forall i :: 0 <= i < |r| ==>
      r[i] == EvaluationRequest(ids[i], QuestionText(questions, ids[i]), submissions[ids[i]], language)
  {
    if ids == [] then []
    else [EvaluationRequest(ids[0], QuestionText(questions, ids[0]), submissions[ids[0]], language)]
         + RequestsFor(ids[1..], submissions, questions, language)
  }

  lemma RequestIdsCover(ids: seq<nat>, submissions: map<nat, string>, r: seq<EvaluationRequest>)
    requires |r| == |ids|
    requires forall i :: 0 <= i < |ids| ==> r[i].questionId == ids[i]
    requires forall i :: 0 <= i < |ids| ==> ids[i] in submissions
    requires forall k :: k in submissions ==> k in ids
    ensures (set i | 0 <= i < |r| :: r[i].questionId) == submissions.Keys
  {
    var got := set i | 0 <= i < |r| :: r[i].questionId;
    forall id | id in submissions.Keys
      ensures id in got
    {
      var i :| 0 <= i < |ids| && ids[i] == id;
      assert r[i].questionId == id;
    }
  }

  /**
   * `evaluationRequests`: one request per submitted question id, carrying
   * the submitted code, the question's text and the session's language.
   */
  function EvaluationRequests(submissions: map<nat, string>, questions: seq<Question>, language: string)
    : (r: seq<EvaluationRequest>)
    ensures |r| == |submissions.Keys|
    ensures forall i :: 0 <= i < |r| ==>
      && r[i].questionId in submissions
      && r[i].code == submissions[r[i].questionId]
      && r[i].questionText == QuestionText(questions, r[i].questionId)
      && r[i].language == language
  {
    RequestsFor(SortedIds(submissions.Keys), submissions, questions, language)
  }

  /**
   * The batch holds every submitted question exactly once, in ascending id
   * order (the order in which an object's integer keys are enumerated).
   */
  lemma EvaluationRequestsExactlyOnce(submissions: map<nat, string>, questions: seq<Question>, language: string)
    ensures var r := EvaluationRequests(submissions, questions, language);
      && (set i | 0 <= i < |r| :: r[i].questionId) == submissions.Keys
      && (forall i, j :: 0 <= i < j < |r| ==> r[i].questionId < r[j].questionId)
  {
    var ids := SortedIds(submissions.Keys);
    var r := RequestsFor(ids, submissions, questions, language);
    RequestIdsCover(ids, submissions, r);
  }

  /** `finishQuiz`, followed by navigation to the quiz list once it completes. */
  function FinishEffects(quizId: nat, finishCompletes: bool): seq<Effect> {
    [FinishQuizCall(quizId)] + (if finishCompletes then [Navigate(QuizzesTabPath)] else [])
  }

  /**
   * What `evaluateSubmissions` asks of the outside world: nothing without
   * submissions or an owner address; otherwise the batch, then, only if the
   * endpoint answered 2xx, `finishQuiz`.
   */
  function EvaluationEffects(quizId: nat, submissions: map<nat, string>, questions: seq<Question>,
                             language: string, ownerEmail: string, evaluationOk: bool, finishCompletes: bool)
    : seq<Effect>
  {
    if |submissions.Keys| == 0 || ownerEmail == "" then []
    else [EvaluateCall(quizId, EvaluationRequests(submissions, questions, language), ownerEmail, language)]
         + (if evaluationOk then FinishEffects(quizId, finishCompletes) else [])
  }

  /**
   * `finishQuiz` is issued by an evaluation exactly when there was something
   * to evaluate, an owner to send it to, and a 2xx answer; and it always
   * comes after the one batch that was sent.
   */
  lemma FinishOnlyAfterEvaluation(quizId: nat, submissions: map<nat, string>, questions: seq<Question>,
                                  language: string, ownerEmail: string, evaluationOk: bool, finishCompletes: bool)
    ensures var e := EvaluationEffects(quizId, submissions, questions, language, ownerEmail, evaluationOk, finishCompletes);
      && (FinishQuizCall(quizId) in e <==> |submissions.Keys| > 0 && ownerEmail != "" && evaluationOk)
      && (FinishQuizCall(quizId) in e ==> e[0].EvaluateCall? && e[1] == FinishQuizCall(quizId))
      && (|submissions.Keys| > 0 && ownerEmail != "" <==> |e| > 0 && e[0].EvaluateCall?)
  {
  }

  // ---------------------------------------------------------------------------
  // Navigation and output of a Run
  // ---------------------------------------------------------------------------

  /** The Previous button's update `Math.max(0, prev - 1)`. */
  function PreviousIndex(i: int): int {
    if i - 1 > 0 then i - 1 else 0
  }

  /** The Next button's update `Math.min(questions.length - 1, prev + 1)`. */
  function NextIndex(i: int, count: nat): int {
    if count - 1 < i + 1 then count - 1 else i + 1
  }

  predicate PreviousEnabled(i: int) {
    i != 0
  }

  predicate NextEnabled(i: int, count: nat) {
    i != count - 1
  }

  /**
   * Both moves keep the pointer inside a non-empty question list, and at a
   * boundary the disabled button's update would change nothing.
   */
  lemma NavigationStaysInRange(i: int, count: nat)
    requires 0 <= i < count
    ensures 0 <= PreviousIndex(i) < count && 0 <= NextIndex(i, count) < count
    ensures !PreviousEnabled(i) ==> PreviousIndex(i) == i
    ensures !NextEnabled(i, count) ==> NextIndex(i, count) == i
    ensures PreviousEnabled(i) ==> PreviousIndex(i) == i - 1
    ensures NextEnabled(i, count) ==> NextIndex(i, count) == i + 1
  {
  }

  /** What the output pane shows after a Run. */
  function RunOutput(response: RunResponse): string {
    match response
    case RunOk(stdout, stderr) => if stdout != "" then stdout else stderr
    case RunHttpError(error) => "Error: " + (if error != "" then error else "Compilation failed")
    case RunThrew(message) => "Error: " + message
  }

  // ---------------------------------------------------------------------------
  // The session
  // ---------------------------------------------------------------------------

  class Session {
    const quizId: nat
    const questions: seq<Question>
    var timeLeft: int
    var isPaused: bool
    var currentQuestion: int
    var submissions: map<nat, string>
    var attempted: nat
    var isSubmitting: bool
    var isEvaluating: bool
    var userCode: string
    var userLanguage: string
    var userInput: string
    var userOutput: string
    var effects: seq<Effect>

    /**
     * The session invariant: the countdown is never negative, the pointer
     * stays on a question, every stored submission is non-blank, and the
     * attempted counter equals the number of submitted questions.
     */
    ghost predicate Valid()
      reads this`timeLeft, this`currentQuestion, this`submissions, this`attempted
    {
      && timeLeft >= 0
      && 0 <= currentQuestion
      && (|questions| > 0 ==> currentQuestion < |questions|)
      && (|questions| == 0 ==> currentQuestion == 0)
      && NoBlankSubmission(submissions)
      && attempted == |submissions.Keys|
    }

    /**
     * The page once its queries have answered: with a quiz id the timer is
     * `duration * 60` and the quiz is started; with id 0 every query is
     * skipped, so there are no questions, no timer and no start call.
     */
    constructor (quizId: nat, loadedQuestions: seq<Question>, durationMinutes: nat)
      ensures Valid()
      ensures this.quizId == quizId
      ensures questions == (if quizId == 0 then [] else loadedQuestions)
      ensures timeLeft == (if quizId == 0 then 0 else durationMinutes * 60)
      ensures !isPaused && currentQuestion == 0 && !isSubmitting && !isEvaluating
      ensures submissions == map[] && attempted == 0
      ensures userCode == "" && userLanguage == "python" && userInput == "" && userOutput == ""
      ensures effects == (if quizId == 0 then [] else [StartQuizCall(quizId)])
    {
      this.quizId := quizId;
      questions := if quizId == 0 then [] else loadedQuestions;
      timeLeft := if quizId == 0 then 0 else durationMinutes * 60;
      isPaused, currentQuestion := false, 0;
      submissions, attempted := map[], 0;
      isSubmitting, isEvaluating := false, false;
      userCode, userLanguage, userInput, userOutput := "", "python", "", "";
      effects := if quizId == 0 then [] else [StartQuizCall(quizId)];
    }

    /** One second of the interval timer: it counts down only while running and stops at 0. */
    method Tick()
      requires Valid()
      modifies this`timeLeft
      ensures Valid()
      ensures old(timeLeft) > 0 && !isPaused ==> timeLeft == old(timeLeft) - 1
      ensures old(timeLeft) == 0 || isPaused ==> timeLeft == old(timeLeft)
    {
      if timeLeft > 0 && !isPaused {
        timeLeft := timeLeft - 1;
      }
    }

    /** The Pause/Resume button: flips the flag and nothing else. */
    method TogglePause()
      requires Valid()
      modifies this`isPaused
      ensures Valid()
      ensures isPaused == !old(isPaused)
    {
      isPaused := !isPaused;
    }

    /** Typing in the editor (`value || ""`). */
    method EditCode(value: Option<string>)
      requires Valid()
      modifies this`userCode
      ensures Valid()
      ensures userCode == value.GetOr("")
    {
      userCode := value.GetOr("");
    }

    method ChangeLanguage(language: string)
      requires Valid()
      modifies this`userLanguage
      ensures Valid() && userLanguage == language
    {
      userLanguage := language;
    }

    method ChangeInput(input: string)
      requires Valid()
      modifies this`userInput
      ensures Valid() && userInput == input
    {
      userInput := input;
    }

    /** Switching questions discards the editor buffer and the output pane. */
    method MoveTo(target: int)
      requires Valid()
      requires 0 <= target && (|questions| > 0 ==> target < |questions|) && (|questions| == 0 ==> target == 0)
      modifies this`currentQuestion, this`userCode, this`userOutput
      ensures Valid()
      ensures currentQuestion == target
      ensures target != old(currentQuestion) ==> userCode == "" && userOutput == ""
      ensures target == old(currentQuestion) ==> userCode == old(userCode) && userOutput == old(userOutput)
    {
      if target != currentQuestion {
        userCode, userOutput := "", "";
      }
      currentQuestion := target;
    }

    /** The Previous button. */
    method Previous()
      requires Valid()
      modifies this`currentQuestion, this`userCode, this`userOutput
      ensures Valid()
      ensures currentQuestion == PreviousIndex(old(currentQuestion))
      ensures currentQuestion != old(currentQuestion) ==> userCode == "" && userOutput == ""
      ensures currentQuestion == old(currentQuestion) ==> userCode == old(userCode) && userOutput == old(userOutput)
    {
      MoveTo(PreviousIndex(currentQuestion));
    }

    /** The Next button; with no questions its update would give -1, so a question is required. */
    method Next()
      requires Valid() && |questions| > 0
      modifies this`currentQuestion, this`userCode, this`userOutput
      ensures Valid()
      ensures currentQuestion == NextIndex(old(currentQuestion), |questions|)
      ensures currentQuestion != old(currentQuestion) ==> userCode == "" && userOutput == ""
      ensures currentQuestion == old(currentQuestion) ==> userCode == old(userCode) && userOutput == old(userOutput)
    {
      MoveTo(NextIndex(currentQuestion, |questions|));
    }

    /** The Submit Question button is enabled while a question is shown and no submit is pending. */
    predicate SubmitEnabled()
      reads this
    {
      0 <= currentQuestion < |questions| && !isSubmitting
    }

    /**
     * `submitCurrentQuestion`: blank code or no current question leaves every
     * field as it was; otherwise the code is stored under the question's id,
     * replacing an earlier submission, and the attempted counter grows only
     * for a question that had none.
     */
    method SubmitCurrentQuestion() returns (outcome: SubmitOutcome)
      requires Valid()
      modifies this`submissions, this`attempted, this`isSubmitting
      ensures Valid()
      ensures outcome == (if IsBlank(userCode) then EmptyCode
                          else if !(0 <= currentQuestion < |questions|) then NoQuestion
                          else Submitted)
      ensures outcome != Submitted ==>
        submissions == old(submissions) && attempted == old(attempted) && isSubmitting == old(isSubmitting)
      ensures outcome == Submitted ==>
        && submissions == old(submissions)[questions[currentQuestion].id := userCode]
        && attempted == old(attempted) + (if questions[currentQuestion].id in old(submissions) then 0 else 1)
        && isSubmitting
    {
      if IsBlank(userCode) {
        return EmptyCode;
      }
      if !(0 <= currentQuestion < |questions|) {
        return NoQuestion;
      }
      isSubmitting := true;
      var id := questions[currentQuestion].id;
      var isNew := id !in submissions;
      submissions := submissions[id := userCode];
      if isNew {
        attempted := attempted + 1;
      }
      outcome := Submitted;
    }

    /** The success notice shown 300 ms after a submit re-enables the button. */
    method SubmitNoticeShown()
      requires Valid()
      modifies this`isSubmitting
      ensures Valid() && !isSubmitting
    {
      isSubmitting := false;
    }

    /**
     * `compile` (the Run button): empty code sends nothing; otherwise the
     * code, language and input go to the compile endpoint and the output pane
     * shows its output or an `Error: ` message. Submissions are untouched.
     */
    method Run(response: RunResponse)
      requires Valid()
      modifies this`effects, this`userOutput
      ensures Valid()
      ensures old(userCode) == "" ==> effects == old(effects) && userOutput == old(userOutput)
      ensures old(userCode) != "" ==>
        effects == old(effects) + [RunRequest(userCode, userLanguage, userInput)] && userOutput == RunOutput(response)
    {
      if userCode == "" {
        return;
      }
      effects := effects + [RunRequest(userCode, userLanguage, userInput)];
      userOutput := RunOutput(response);
    }

    /** The Finish button is disabled while an evaluation is outstanding. */
    predicate FinishEnabled()
      reads this
    {
      !isEvaluating
    }

    /**
     * `evaluateSubmissions`: without submissions or without the owner's
     * address nothing is sent; otherwise one batch holding one request per
     * submitted question is sent, and `finishQuiz` follows only when the
     * endpoint answered 2xx (navigation only once `finishQuiz` completes).
     * The busy flag is clear again in every outcome.
     */
    method EvaluateSubmissions(ownerEmail: string, evaluationOk: bool, finishCompletes: bool)
      returns (outcome: EvaluationOutcome)
      requires Valid()
      modifies this`effects, this`isEvaluating
      ensures Valid()
      ensures outcome == (if |submissions.Keys| == 0 then NothingToEvaluate
                          else if ownerEmail == "" then OwnerUnknown
                          else if !evaluationOk then EvaluationFailed
                          else Evaluated)
      ensures effects == old(effects) + EvaluationEffects(quizId, submissions, questions, userLanguage,
                                                          ownerEmail, evaluationOk, finishCompletes)
      ensures outcome == NothingToEvaluate ==> isEvaluating == old(isEvaluating)
      ensures outcome != NothingToEvaluate ==> !isEvaluating
    {
      ghost var batch := EvaluationEffects(quizId, submissions, questions, userLanguage,
                                           ownerEmail, evaluationOk, finishCompletes);
      if |submissions.Keys| == 0 {
        assert batch == [];
        assert effects + batch == effects;
        return NothingToEvaluate;
      }
      isEvaluating := true;
      // with an owner address the batch goes out; `finishQuiz` follows only a 2xx answer
      effects := effects + EvaluationEffects(quizId, submissions, questions, userLanguage,
                                             ownerEmail, evaluationOk, finishCompletes);
      outcome := if ownerEmail == "" then OwnerUnknown
                 else if evaluationOk then Evaluated
                 else EvaluationFailed;
      isEvaluating := false;
    }

    /**
     * `handleFinishQuiz`: the user is always asked first. With no submissions
     * an OK issues `finishQuiz` directly; with submissions an OK runs the
     * evaluation, which alone decides whether `finishQuiz` is issued.
     */
    method HandleFinishQuiz(confirmed: bool, ownerEmail: string, evaluationOk: bool, finishCompletes: bool)
      returns (outcome: FinishOutcome)
      requires Valid()
      modifies this`effects, this`isEvaluating
      ensures Valid()
      ensures !confirmed ==> outcome == Declined && effects == old(effects) && isEvaluating == old(isEvaluating)
      ensures confirmed && |submissions.Keys| == 0 ==>
        && outcome == FinishedWithoutSubmissions
        && effects == old(effects) + FinishEffects(quizId, finishCompletes)
        && isEvaluating == old(isEvaluating)
      ensures confirmed && |submissions.Keys| > 0 ==>
        && outcome.Evaluation? && outcome.result != NothingToEvaluate
        && effects == old(effects) + EvaluationEffects(quizId, submissions, questions, userLanguage,
                                                       ownerEmail, evaluationOk, finishCompletes)
        && !isEvaluating
    {
      if !confirmed {
        return Declined;
      }
      if |submissions.Keys| == 0 {
        effects := effects + FinishEffects(quizId, finishCompletes);
        return FinishedWithoutSubmissions;
      }
      var result := EvaluateSubmissions(ownerEmail, evaluationOk, finishCompletes);
      outcome := Evaluation(result);
    }
  }
}
