/**
 * The evaluation endpoint (`POST /api/evaluate-quiz`): it validates the
 * batch, has each submission graded by a language model with the quiz's
 * rubric, and mails the grades to the quiz owner.
 *
 * The language model, the rubric lookup and the mail transport are
 * parameters: `llm` maps a prompt to what the model answered, `rubric` is
 * what the lookup returned, `mail` says whether sending threw.
 */
module EvaluateQuiz {
  import opened Common

  datatype SubmissionData = SubmissionData(questionId: int, questionText: string, code: string, language: string)

  /** The `submissions` field of the request body. */
  datatype SubmissionsField = Missing | NotArray | Items(items: seq<SubmissionData>)

  datatype RequestBody = RequestBody(
    quizId: nat,
    submissions: SubmissionsField,
    ownerEmail: Option<string>,
    language: string)

  datatype EvaluationResult = EvaluationResult(questionId: int, questionText: string, code: string, evaluation: string)

  /** What the rubric lookup for the quiz gave. */
  datatype RubricLookup =
    | QuizRow(rubricType: Option<string>, customRubric: Option<string>)
    | NoQuizRow
    | LookupThrew(message: string)

  datatype LlmOutcome = Answered(text: string) | LlmThrew(message: string)

  datatype MailOutcome = Sent | MailThrew(message: string)

  datatype Email = Email(to: string, subject: string, html: string)

  datatype ResponseBody = ErrorBody(error: string) | SuccessBody(message: string)

  datatype Response = Response(status: nat, body: ResponseBody)

  const NoSubmissions := "No submissions provided"
  const OwnerEmailRequired := "Owner email is required"
  const Completed := "Evaluation completed and sent to instructor"
  const FailedDefault := "Failed to evaluate submissions"
  const EvaluationErrorPrefix := "Error evaluating submission: "

  // ---------------------------------------------------------------------------
  // Validation
  // ---------------------------------------------------------------------------

  /** The two 400 answers, in the order they are checked; `None` when the batch may proceed. */
  function ValidationError(body: RequestBody): (r: Option<Response>)
    ensures r.Some? ==> r.value.status == 400 && r.value.body.ErrorBody?
    ensures !body.submissions.Items? || body.submissions.items == [] ==> r == Some(Response(400, ErrorBody(NoSubmissions)))
    ensures body.submissions.Items? && body.submissions.items != [] ==>
      (r.Some? <==> body.ownerEmail.GetOr("") == "")
    ensures r.Some? && body.submissions.Items? && body.submissions.items != [] ==>
      r.value.body == ErrorBody(OwnerEmailRequired)
  {
    if !body.submissions.Items? || body.submissions.items == [] then Some(Response(400, ErrorBody(NoSubmissions)))
    else if body.ownerEmail.GetOr("") == "" then Some(Response(400, ErrorBody(OwnerEmailRequired)))
    else None
  }

  // ---------------------------------------------------------------------------
  // Prompts
  // ---------------------------------------------------------------------------

  /** Whether `part` occurs in `whole` as a contiguous piece. */
  predicate Contains(whole: string, part: string) {
    exists k :: 0 <= k <= |whole| && part <= whole[k..]
  }

  /** A piece occurs in any text built around it. */
  lemma ContainsBetween(before: string, part: string, after: string)
    ensures Contains(before + part + after, part)
  {
    var w := before + part + after;
    assert w[|before|..] == part + after;
  }

  /** Appending text keeps every piece that already occurred. */
  lemma ContainsExtended(whole: string, part: string, more: string)
    requires Contains(whole, part)
    ensures Contains(whole + more, part)
  {
    var k :| 0 <= k <= |whole| && part <= whole[k..];
    assert (whole + more)[k..] == whole[k..] + more;
  }

  /** Prepending text keeps every piece that already occurred. */
  lemma ContainsPrepended(more: string, whole: string, part: string)
    requires Contains(whole, part)
    ensures Contains(more + whole, part)
  {
    var k :| 0 <= k <= |whole| && part <= whole[k..];
    assert (more + whole)[|more| + k..] == whole[k..];
  }

  /** The instructor framing that precedes the question text. */
  const PromptIntro :=
    "\n"
    + "You are an expert programming "
    + "instructor evaluating a student's code "
    + "submission for a programming quiz.\n"
    + "\n"
    + "QUESTION:\n"

  /** The line announcing the code and the opening fence, both naming the language. */
  function CodeHeading(language: string): string {
    "\n\nSTUDENT'S CODE (" + language + "):\n```" + language + "\n"
  }

  /** The part both prompts share: the question, then the code fenced with its language. */
  function PromptHead(s: SubmissionData): string {
    PromptIntro + s.questionText + CodeHeading(s.language) + s.code + "\n```\n\n"
  }

  /** The head of every prompt carries the question text and the code. */
  lemma {:induction false} PromptHeadCarriesSubmission(s: SubmissionData)
    ensures Contains(PromptHead(s), s.questionText)
    ensures Contains(PromptHead(s), s.code)
  {
    var question := PromptIntro + s.questionText;
    ContainsBetween(PromptIntro, s.questionText, []);
    assert question + [] == question;
    ContainsExtended(question, s.questionText, CodeHeading(s.language));
    ContainsExtended(question + CodeHeading(s.language), s.questionText, s.code);
    ContainsExtended(question + CodeHeading(s.language) + s.code, s.questionText, "\n```\n\n");
    ContainsBetween(question + CodeHeading(s.language), s.code, "\n```\n\n");
  }

  /** The quiz asks for its own rubric: type "custom" with a non-empty text. */
  predicate UsesCustomRubric(rubric: RubricLookup) {
    rubric.QuizRow? && rubric.rubricType == Some("custom") && rubric.customRubric.GetOr("") != ""
  }

  /** The 1-5 scale and the answer format asked for when the quiz has no custom rubric. */
  const DefaultRubric :=
    "Please evaluate this code on a scale of "
    + "1-5, where:\n"
    + "1 = Completely incorrect, does not "
    + "compile or run\n"
    + "2 = Major issues, partially addresses "
    + "the problem but with significant errors\n"
    + "3 = Works but has some issues or "
    + "inefficiencies\n"
    + "4 = Good solution with minor "
    + "improvements possible\n"
    + "5 = Excellent, optimal solution\n"
    + "\n"
    + "Your evaluation should include:\n"
    + "1. Score (1-5)\n"
    + "2. Correctness: Does the code correctly "
    + "solve the problem?\n"
    + "3. Efficiency: Is the algorithm "
    + "efficient? Any performance concerns?\n"
    + "4. Code quality: Is the code "
    + "well-structured, readable, and "
    + "maintainable?\n"
    + "5. Specific issues: Point out any bugs "
    + "or errors\n"
    + "6. Suggestions: How could the code be "
    + "improved?\n"
    + "\n"
    + "Format your response as follows:\n"
    + "Score: [1-5]\n"
    + "Correctness: [Your assessment]\n"
    + "Efficiency: [Your assessment]\n"
    + "Code Quality: [Your assessment]\n"
    + "Issues: [List specific issues]\n"
    + "Suggestions: [Your recommendations]\n"

  /** What follows the head: the owner's instructions, or the default scale. */
  function RubricPart(rubric: RubricLookup): string {
    if UsesCustomRubric(rubric) then "EVALUATION INSTRUCTIONS:\n" + rubric.customRubric.value + "\n"
    else DefaultRubric
  }

  /** The prompt sent for one submission. */
  function Prompt(s: SubmissionData, rubric: RubricLookup): string {
    PromptHead(s) + RubricPart(rubric)
  }

  /** Whatever follows the head, the text opens with it and carries the question and the code. */
  lemma {:induction false} HeadThenRest(s: SubmissionData, rest: string)
    ensures PromptHead(s) <= PromptHead(s) + rest
    ensures Contains(PromptHead(s) + rest, s.questionText)
    ensures Contains(PromptHead(s) + rest, s.code)
  {
    PromptHeadCarriesSubmission(s);
    ContainsExtended(PromptHead(s), s.questionText, rest);
    ContainsExtended(PromptHead(s), s.code, rest);
    assert (PromptHead(s) + rest)[..|PromptHead(s)|] == PromptHead(s);
  }

  /**
   * Whichever rubric applies, the prompt carries the question text and the
   * code. A custom rubric's text is in
   * the prompt; without one the default scale follows the head.
   */
  lemma {:induction false} PromptCarriesSubmission(s: SubmissionData, rubric: RubricLookup)
    ensures Contains(Prompt(s, rubric), s.questionText)
    ensures Contains(Prompt(s, rubric), s.code)
    ensures UsesCustomRubric(rubric) ==> Contains(Prompt(s, rubric), rubric.customRubric.value)
    ensures !UsesCustomRubric(rubric) ==> Prompt(s, rubric) == PromptHead(s) + DefaultRubric
  {
    HeadThenRest(s, RubricPart(rubric));
    if UsesCustomRubric(rubric) {
      ContainsBetween("EVALUATION INSTRUCTIONS:\n", rubric.customRubric.value, "\n");
      ContainsPrepended(PromptHead(s), RubricPart(rubric), rubric.customRubric.value);
    }
  }

  // ---------------------------------------------------------------------------
  // Grading
  // ---------------------------------------------------------------------------

  /**
   * `evaluateWithGemini`: the model's answer when the rubric lookup and the
   * model call both succeed; otherwise the failure's message after a fixed
   * prefix, so that a failed grading never fails the batch.
   */
  function Evaluate(s: SubmissionData, rubric: RubricLookup, llm: string -> LlmOutcome): (text: string)
    ensures !rubric.LookupThrew? && llm(Prompt(s, rubric)).Answered? ==> text == llm(Prompt(s, rubric)).text
    ensures rubric.LookupThrew? ==> text == EvaluationErrorPrefix + rubric.message
    ensures !rubric.LookupThrew? && llm(Prompt(s, rubric)).LlmThrew? ==>
      text == EvaluationErrorPrefix + llm(Prompt(s, rubric)).message
  {
    if rubric.LookupThrew? then EvaluationErrorPrefix + rubric.message
    else
      match llm(Prompt(s, rubric))
      case Answered(t) => t
      case LlmThrew(m) => EvaluationErrorPrefix + m
  }

  /** One result per submission, in order, with the submission's fields copied. */
  function Results(items: seq<SubmissionData>, rubric: RubricLookup, llm: string -> LlmOutcome)
    : (r: seq<EvaluationResult>)
    ensures |r| == |items|
    ensures forall i :: 0 <= i < |r| ==>
      && r[i].questionId == items[i].questionId
      && r[i].questionText == items[i].questionText
      && r[i].code == items[i].code
      && r[i].evaluation == Evaluate(items[i], rubric, llm)
  {
    if items == [] then []
    else [EvaluationResult(items[0].questionId, items[0].questionText, items[0].code, Evaluate(items[0], rubric, llm))]
         + Results(items[1..], rubric, llm)
  }

  // ---------------------------------------------------------------------------
  // The e-mail
  // ---------------------------------------------------------------------------

  function EmailSubject(quizId: nat): string {
    "Quiz #" + NatToString(quizId) + " - Student Submission Evaluation"
  }

  /** The subject names the quiz by its decimal id between `Quiz #` and the fixed title. */
  lemma EmailSubjectNamesQuiz(quizId: nat)
    ensures var s := EmailSubject(quizId);
      var digits := s[|"Quiz #"|..|s| - |" - Student Submission Evaluation"|];
      && s[..|"Quiz #"|] == "Quiz #"
      && s[|s| - |" - Student Submission Evaluation"|..] == " - Student Submission Evaluation"
      && AllDigits(digits) && DecimalValue(digits) == quizId
  {
    var s := EmailSubject(quizId);
    assert s[|"Quiz #"|..|s| - |" - Student Submission Evaluation"|] == NatToString(quizId);
  }

  /** What follows the quiz number in the title: the notice, then the label of the language. */
  const HeaderNotice :=
    " Evaluation Results</h1>\n"
    + "    <p>A student has completed the quiz "
    + "and their submissions have been "
    + "evaluated by AI.</p>\n"
    + "    <p>Language: "

  /** The title naming the quiz, the notice, and the language of the batch. */
  function EmailHeader(quizId: nat, language: string): string {
    "\n    <h1>Quiz #" + NatToString(quizId) + HeaderNotice + language + "</p>\n    <hr>\n  "
  }

  /** What comes between a question's text and its code. */
  const CodeOpening :=
    "</h2>\n"
    + "      <h3>Student's Code:</h3>\n"
    + "      <pre style=\"background-color: "
    + "#f5f5f5; padding: 10px; border-radius: "
    + "5px; overflow-x: auto;\">\n"

  /** What comes between the code and the model's evaluation. */
  const EvaluationOpening :=
    "\n"
    + "      </pre>\n"
    + "      <h3>AI Evaluation:</h3>\n"
    + "      <div style=\"background-color: "
    + "#f9f9f9; padding: 15px; border-left: "
    + "4px solid #4CAF50; margin-bottom: "
    + "20px;\">\n"
    + "        <pre>"

  /** The block for the result at position `index` (numbered from 1 in the text). */
  function EmailSection(index: nat, e: EvaluationResult): string {
    "\n      <h2>Question " + NatToString(index + 1) + ": " + e.questionText + CodeOpening + e.code
    + EvaluationOpening + e.evaluation + "</pre>\n      </div>\n      <hr>\n    "
  }

  /** The paragraph that closes the mail. */
  const ClosingParagraph :=
    "\n"
    + "    <p>This is an automated evaluation. "
    + "You may want to review the submissions "
    + "yourself.</p>\n"
    + "  "

  /** `start` followed by the block of each item, in order; `block` gets the item's position. */
  function Appended<T>(start: string, items: seq<T>, block: (nat, T) -> string): string {
    if items == [] then start
    else Appended(start, items[..|items| - 1], block) + block(|items| - 1, items[|items| - 1])
  }

  /** What was written after the first `i` blocks is the start of what is written after all of them. */
  lemma {:induction false} AppendedPrefix<T>(start: string, items: seq<T>, block: (nat, T) -> string, i: nat)
    requires i <= |items|
    ensures Appended(start, items[..i], block) <= Appended(start, items, block)
    decreases |items|
  {
    if i == |items| {
      assert items[..i] == items;
    } else {
      var init := items[..|items| - 1];
      AppendedPrefix(start, init, block, i);
      assert init[..i] == items[..i];
      var a, b := Appended(start, items[..i], block), Appended(start, init, block);
      var c := block(|items| - 1, items[|items| - 1]);
      assert (b + c)[..|a|] == b[..|a|];
    }
  }

  /** The content once the header and the blocks of the results `done` were written. */
  function EmailSoFar(quizId: nat, language: string, done: seq<EvaluationResult>): string {
    Appended(EmailHeader(quizId, language), done, EmailSection)
  }

  /** The whole body: header, one block per result, closing paragraph. */
  function EmailBody(quizId: nat, results: seq<EvaluationResult>, language: string): string {
    EmailSoFar(quizId, language, results) + ClosingParagraph
  }

  /**
   * `sendEvaluationEmail`'s body, accumulated block by block as the source
   * does.
   */
  method BuildEmailContent(quizId: nat, results: seq<EvaluationResult>, language: string) returns (content: string)
    ensures content == EmailBody(quizId, results, language)
  {
    content := EmailHeader(quizId, language);
    var i := 0;
    while i < |results|
      invariant 0 <= i <= |results|
      invariant content == EmailSoFar(quizId, language, results[..i])
    {
      assert results[..i + 1][..i] == results[..i];
      content := content + EmailSection(i, results[i]);
      i := i + 1;
    }
    assert results[..i] == results;
    content := content + ClosingParagraph;
  }

  /**
   * The accumulated text opens with `start` and holds the block of item `i`
   * right after the blocks of the items before it.
   */
  lemma {:induction false} AppendedLayout<T>(start: string, items: seq<T>, block: (nat, T) -> string, i: nat)
    requires i < |items|
    ensures start <= Appended(start, items, block)
    ensures Appended(start, items[..i], block) + block(i, items[i]) <= Appended(start, items, block)
  {
    AppendedPrefix(start, items, block, 0);
    assert items[..0] == [];
    AppendedPrefix(start, items, block, i + 1);
    assert items[..i + 1][..i] == items[..i];
  }

  /**
   * The body opens with the header, holds the block of every result,
   * numbered from 1, right after the blocks of the results before it, and
   * ends with the closing paragraph.
   */
  lemma {:induction false} EmailBodyLayout(quizId: nat, results: seq<EvaluationResult>, language: string, i: nat)
    requires i < |results|
    ensures EmailHeader(quizId, language) <= EmailBody(quizId, results, language)
    ensures EmailSoFar(quizId, language, results[..i]) + EmailSection(i, results[i]) <= EmailBody(quizId, results, language)
    ensures var b := EmailBody(quizId, results, language);
      |b| >= |ClosingParagraph| && b[|b| - |ClosingParagraph|..] == ClosingParagraph
  {
    var all := EmailSoFar(quizId, language, results);
    AppendedLayout(EmailHeader(quizId, language), results, EmailSection, i);
    PrefixExtended(EmailHeader(quizId, language), all, ClosingParagraph);
    PrefixExtended(EmailSoFar(quizId, language, results[..i]) + EmailSection(i, results[i]), all, ClosingParagraph);
  }

  /** A prefix stays a prefix when text is appended. */
  lemma PrefixExtended(a: string, b: string, more: string)
    requires a <= b
    ensures a <= b + more
  {
    assert (b + more)[..|a|] == b[..|a|];
  }

  // ---------------------------------------------------------------------------
  // The handler
  // ---------------------------------------------------------------------------

  /** The answer: a 400 for a rejected batch, else 200 once the mail went out, or 500. */
  function ResponseFor(body: RequestBody, mail: MailOutcome): Response {
    if ValidationError(body).Some? then ValidationError(body).value
    else match mail
      case Sent => Response(200, SuccessBody(Completed))
      case MailThrew(message) => Response(500, ErrorBody(if message != "" then message else FailedDefault))
  }

  /** The graded results of an accepted batch (none for a batch without submissions). */
  function BatchResults(body: RequestBody, rubric: RubricLookup, llm: string -> LlmOutcome): seq<EvaluationResult> {
    if body.submissions.Items? then Results(body.submissions.items, rubric, llm) else []
  }

  /** The mail handed to the transport: none for a rejected batch, else `html` to the owner. */
  function MailFor(body: RequestBody, html: string): Option<Email> {
    if ValidationError(body).Some? then None
    else Some(Email(body.ownerEmail.value, EmailSubject(body.quizId), html))
  }

  /**
   * A rejected batch is answered with its 400 and nothing is mailed; an
   * accepted one is mailed to its non-empty owner address, and success is
   * reported exactly when the transport returned; a throwing transport
   * gives 500 with its message, or a default when the message is empty.
   */
  lemma HandlerOutcomes(body: RequestBody, html: string, mail: MailOutcome)
    ensures ValidationError(body).Some? ==>
      ResponseFor(body, mail) == ValidationError(body).value && MailFor(body, html) == None
    ensures ResponseFor(body, mail).body.SuccessBody? <==> MailFor(body, html).Some? && mail == Sent
    ensures MailFor(body, html).Some? ==>
      && MailFor(body, html).value.to == body.ownerEmail.value != ""
      && MailFor(body, html).value.subject == EmailSubject(body.quizId)
      && MailFor(body, html).value.html == html
    ensures MailFor(body, html).Some? && mail.MailThrew? ==>
      ResponseFor(body, mail).status == 500
      && ResponseFor(body, mail).body.error == (if mail.message != "" then mail.message else FailedDefault)
  {
  }

  /** The grades of an accepted batch, written up and addressed to the owner. */
  method ComposeMail(body: RequestBody, rubric: RubricLookup, llm: string -> LlmOutcome) returns (email: Email)
    requires ValidationError(body).None?
    ensures Some(email) == MailFor(body, EmailBody(body.quizId, BatchResults(body, rubric, llm), body.language))
  {
    var results := Results(body.submissions.items, rubric, llm);
    var html := BuildEmailContent(body.quizId, results, body.language);
    email := Email(body.ownerEmail.value, EmailSubject(body.quizId), html);
  }

  /**
   * `POST`: validates, grades every submission, writes the mail and hands
   * it to the transport; it answers as `ResponseFor` says, and what it
   * sends is the body of all the grades.
   */
  method Post(body: RequestBody, rubric: RubricLookup, llm: string -> LlmOutcome, mail: MailOutcome)
    returns (response: Response, sent: Option<Email>)
    ensures response == ResponseFor(body, mail)
    ensures sent == MailFor(body, EmailBody(body.quizId, BatchResults(body, rubric, llm), body.language))
  {
    var rejected := ValidationError(body);
    if rejected.Some? {
      return rejected.value, None;
    }
    var email := ComposeMail(body, rubric, llm);
    sent := Some(email);
    match mail {
      case Sent =>
        response := Response(200, SuccessBody(Completed));
      case MailThrew(message) =>
        response := Response(500, ErrorBody(if message != "" then message else FailedDefault));
    }
  }
}
