# TechQuest quiz platform — a Dafny model

TechQuest is a Next.js quiz platform for programming courses. A teacher
builds a quiz from a bank of questions filtered by topic, difficulty and
year. Students take it in a browser editor with a countdown timer and
submit code question by question. On finishing, their submissions are
graded by a language model and the grades are mailed to the quiz's
owner. Quizzes can be shared through single-use assignment links.

This project models the logic of that core in Dafny and proves properties
of it. One module per source file:

| module | file | what it holds |
|---|---|---|
| `Resolvers` | `resolvers.dfy` | The GraphQL mutations over a `Store` class: quiz creation (topic checks, candidate filter, random selection), claiming a link, deletion, start/finish/reset, rubric, question edits. |
| `QuizSession` | `quiz_session.dfy` | The quiz-taking page as a `Session` class: timer, navigation, per-question submissions, Run, and the evaluation hand-off on Finish. |
| `QuizzesList` | `quizzes_list.dfy` | The quiz list: button labels and gating, the restart path, which rows are shown, per-row buttons, and the rubric dialog (`RubricDialog` class). |
| `EditQuiz` | `edit_quiz.dfy` | The quiz editor: the selected-question list, its toggle and delete, and the ten-row pages. |
| `EvaluateQuiz` | `evaluate_quiz.dfy` | `POST /api/evaluate-quiz`: validation, the grading prompt, per-submission grading, the e-mail body, and the response. |
| `CompileRoute` | `compile_route.dfy` | `POST /api/compile`: the language table and the request sent to the execution service. |
| `Auth` | `auth.dfy` | Credentials sign-in and the `jwt`/`session` callbacks (`Token` and `SessionUser` classes). |
| `Signup` | `signup.dfy` | `POST /api/signup`. |
| `AssignmentVerify` | `assignment_verify.dfy` | `POST /api/assignments/verify` over a `LinkStore` class. |
| `Practise` | `practise.dfy` | The practice page: question stepping and the tab bar. |
| `CustomQuestions` | `custom_questions.dfy` | The custom-question screen: subject filter, subject picker, create guard. |
| `CppSnippets` | `cpp_snippets.dfy` | The C++ snippet table, the header list and the `#include` block. |
| `EditorConfig` | `editor_config.dfy` | The C++ completion provider and `setupEditor`. |
| `Common` | `common.dfy` | Shared pieces: `Option`, decimal rendering (`toString`, `padStart`), JavaScript `slice`, order-preserving filter. |

Outside services are parameters of the operation that uses them:
- the database is a store object or a collection argument;
- the language model, the mail transport and the code runner are functions or outcome values;
- password hashing is a function or predicate;
- the clock is a `now` argument;
- randomness is an index permutation.

Calls a page makes to other services are appended to an effects log, so the
order and presence of each call can be stated.

JavaScript semantics the model writes out explicitly:
- truthiness: `""`, `0` and an absent value are false;
- `parseInt` reads only the leading decimal digits (its `0x` hexadecimal prefix is not modelled);
- a template literal renders an absent value as `undefined`;
- `slice` accepts negative bounds;
- an object's integer keys are enumerated in ascending order;
- an ORM `where` field that is undefined is ignored;
- an ORM update of a missing row fails.

Behaviour of the code worth noting:
- **Editor buffer on a question change.** The quiz page clears the editor
  whenever the question changes (`compiler/page.tsx:214-220`). It does not
  show the last submitted code again. `Session.MoveTo` models the clearing.
- **Restarting a finished regular quiz.** The list resets `finished_at` and
  then only navigates (`QuizzesList/page.tsx:204-220`). The start call is
  issued by the quiz page when it loads, as the `Session` constructor
  shows; the list itself never issues it.
- **Who may start, finish or reset a quiz.** The three mutations check only
  that the user exists, not that they own the quiz
  (`resolvers.ts:630-738`). `Store.LifecycleCheck` models exactly those checks.

## Model

| member | source | states |
|---|---|---|
| Resolvers.Message | app/graphql/resolvers/resolvers.ts:381 | a missing-topics error is the fixed prefix followed by the missing ids joined with ", " |
| Resolvers.JoinIds | app/graphql/resolvers/resolvers.ts:381 | `join(", ")` over decimal ids: the missing list as `Message` renders it; its layout is stated through `Resolvers.Message` |
| Resolvers.FindUserByEmail | app/graphql/resolvers/resolvers.ts:343-349 | a found user is in the table and has that e-mail; none found means no user has it |
| Resolvers.FindUserById | app/graphql/resolvers/resolvers.ts:571-591 | the quiz's `owner` relation: a found user is in the table and has that id; none found means no user has it |
| Resolvers.MissingTopics | app/graphql/resolvers/resolvers.ts:378-380 | exactly the requested ids that name no topic, as an ordered subsequence of the request, each as often as it was requested |
| Resolvers.TopicCheckAsWritten | app/graphql/resolvers/resolvers.ts:363-389 | the topic checks as written: accepted requests are non-empty and share one subject (see Findings) |
| Resolvers.TopicCheck | app/graphql/resolvers/resolvers.ts:363-389 | accepts exactly a non-empty request whose ids all name topics of one subject, which it returns; an empty request gets the no-topic error; missing ids are listed exactly |
| Resolvers.DistinctFoundAllExist | app/graphql/resolvers/resolvers.ts:378 | when as many topic rows are found as ids were requested, every id names a topic |
| Resolvers.AsWrittenAgreesOnDistinct | app/graphql/resolvers/resolvers.ts:378-382 | on requests without repeated ids, the written check and the corrected one give the same answer |
| Resolvers.RepeatedTopicRejected | app/graphql/resolvers/resolvers.ts:378-382 | naming an existing topic twice is refused by the written check with an empty missing-list, but accepted by the corrected one |
| Resolvers.Candidates | app/graphql/resolvers/resolvers.ts:392-404 | exactly the questions on a requested topic, of the difficulty, within the year range and of the subject, in query order |
| Resolvers.Shuffle | app/graphql/resolvers/resolvers.ts:412-413 | the random sort is a rearrangement of the candidates: same length, only candidates, no repetition introduced |
| Resolvers.SelectionIsBoundedSubset | app/graphql/resolvers/resolvers.ts:412-414 | the selection holds distinct candidates, `min(n, available)` of them for `n >= 0`, and follows `slice` for negative `n` |
| Resolvers.Selection | app/graphql/resolvers/resolvers.ts:412-414 | the shuffled candidates sliced to `min(n, available)`; `Resolvers.SelectionIsBoundedSubset` states its size and distinctness |
| Resolvers.FilterDistinct | app/graphql/resolvers/resolvers.ts:392-404 | the candidate filter keeps question rows free of repetition |
| Resolvers.NewQuiz | app/graphql/resolvers/resolvers.ts:416-445 | the row `quiz.create` inserts: the caller as owner, the input fields, the topics as a set, REGULAR, no questions, no timestamps or rubric |
| Resolvers.CreatedQuiz | app/graphql/resolvers/resolvers.ts:416-456 | the new row with the selected questions connected; `Resolvers.CreatedQuizHoldsSelection` states what it holds |
| Resolvers.CreatedQuizHoldsSelection | app/graphql/resolvers/resolvers.ts:416-456 | the stored quiz holds exactly the selected question ids and records their count; it is REGULAR, unstarted, owned by the caller, with the requested topics |
| Resolvers.PlanQuiz | app/graphql/resolvers/resolvers.ts:334-414 | a planned quiz is owned by an existing user |
| Resolvers.PlanQuizOutcomes | app/graphql/resolvers/resolvers.ts:339-414 | the refusals in order (no session, unknown user, each failed topic check, no candidates); a planned quiz is owned by the signed-in user, has the topics' subject and holds the selection |
| Resolvers.MemberFoundById | app/graphql/resolvers/resolvers.ts:423 | a user in the table is found by its id |
| Resolvers.WithRubric | app/graphql/resolvers/resolvers.ts:771-777 | the rubric update of one row; `Resolvers.RubricStoredOnlyForCustom` states that only the two rubric fields change and when the text is kept |
| Resolvers.RubricStoredOnlyForCustom | app/graphql/resolvers/resolvers.ts:771-777 | the rubric type is stored as given; a custom text is kept only for "custom", and an omitted one leaves the stored text; nothing else changes |
| Resolvers.Store.constructor | app/graphql/resolvers/resolvers.ts:416 | a fresh store is valid, has no quizzes and no assignments, and starts the quiz id sequence at 1 |
| Resolvers.Store.SessionUser | app/graphql/resolvers/resolvers.ts:339-349 | the signed-in user is a stored user with the session's e-mail |
| Resolvers.Store.CreateQuiz | app/graphql/resolvers/resolvers.ts:334-483 | fails exactly when the plan fails, with its error, changing nothing; otherwise stores the planned quiz under the next sequence id, which was free, and advances the sequence |
| Resolvers.Store.StoreQuiz | app/graphql/resolvers/resolvers.ts:416-456 | create then connect: the quiz ends up stored under a fresh id with its questions, and the store stays valid |
| Resolvers.Store.ReplaceQuiz | app/graphql/resolvers/resolvers.ts:534-537 | an update of one quiz row by the same owner replaces that row only and keeps the store valid |
| Resolvers.Store.FindAssignment | app/graphql/resolvers/resolvers.ts:502-517 | the first assignment with the link; none means no assignment has it |
| Resolvers.FirstWithLink | app/graphql/resolvers/resolvers.ts:502-517 | the first index at or after `from` holding the link, or none |
| Resolvers.Store.ClaimQuizAssignment | app/graphql/resolvers/resolvers.ts:485-558 | the refusals in order (login, user, invalid link, already assigned) change nothing; success adds the student to that assignment only and marks its quiz ASSIGNED |
| Resolvers.Store.DeleteQuiz | app/graphql/resolvers/resolvers.ts:560-628 | the refusals in order (session, missing quiz, not the owner, a student holds it) change nothing; success removes the quiz and exactly its assignments |
| Resolvers.Store.LifecycleCheck | app/graphql/resolvers/resolvers.ts:636-660 | passes exactly for a known signed-in user and an existing quiz |
| Resolvers.Store.StartQuiz | app/graphql/resolvers/resolvers.ts:630-665 | a failed check changes nothing; otherwise `start_time` is set to now, also when already set, and only that field changes |
| Resolvers.Store.FinishQuiz | app/graphql/resolvers/resolvers.ts:667-702 | a failed check changes nothing; otherwise only `finished_at` is set to now |
| Resolvers.Store.ResetQuizFinishedAt | app/graphql/resolvers/resolvers.ts:704-738 | a failed check changes nothing; otherwise only `finished_at` is cleared |
| Resolvers.Store.OwnerCheck | app/graphql/resolvers/resolvers.ts:748-768 | passes exactly for a session whose e-mail is the owner's of an existing quiz |
| Resolvers.Store.SetQuizRubric | app/graphql/resolvers/resolvers.ts:740-780 | only the owner may set the rubric; the quiz gets the rubric update and nothing else changes |
| Resolvers.Store.UpdateQuizQuestions | app/graphql/resolvers/resolvers.ts:810-860 | only the owner may edit; an unknown question id fails and changes nothing; otherwise the question set becomes the given ids and the count their list length |
| Resolvers.Store.DeleteQuestionFromQuiz | app/graphql/resolvers/resolvers.ts:862-912 | only the owner may edit; the question leaves the set and the count drops by one, even when the question was not in the quiz |
| QuizSession.NatToStringBelow100 | app/compiler/page.tsx:155-162 | a number below 100 renders as at most two digits |
| QuizSession.SecondsOfWholeMinutes | app/compiler/page.tsx:158 | adding whole minutes leaves the seconds field unchanged |
| QuizSession.ClockArithmetic | app/compiler/page.tsx:155-158 | hours, minutes below 60 and seconds below 60 recombine to the input |
| QuizSession.FormatTime | app/compiler/page.tsx:155-162 | `HH:MM:SS` from the hours, minutes and seconds, each padded to two digits; `QuizSession.FormatTimeFields` states that it reads back to the input |
| QuizSession.FormatTimeFields | app/compiler/page.tsx:155-162 | `HH:MM:SS` reads back: digit fields, minutes and seconds exactly two digits and below 60, hours at least two, summing to the input |
| QuizSession.FindQuestion | app/compiler/page.tsx:328-330 | the found question is in the list with that id; none found means no question has it |
| QuizSession.QuestionText | app/compiler/page.tsx:328-334 | the found question's description, or "Unknown question" when it is missing or empty |
| QuizSession.HasMinimum | app/compiler/page.tsx:326 | a non-empty id set has a least element |
| QuizSession.MinId | app/compiler/page.tsx:326 | the least submitted id |
| QuizSession.SortedIds | app/compiler/page.tsx:326 | the submitted ids, each once, in ascending order, as an object's integer keys enumerate |
| QuizSession.LeastThenRest | app/compiler/page.tsx:326 | the least id followed by an ascending listing of the rest lists the whole set in ascending order |
| QuizSession.RequestsFor | app/compiler/page.tsx:326-339 | one request per id, in order, each with that id's code, the question's text (or "Unknown question") and the language |
| QuizSession.RequestIdsCover | app/compiler/page.tsx:326-339 | the requests carry exactly the listed ids, in their order |
| QuizSession.EvaluationRequests | app/compiler/page.tsx:326-339 | one request per submitted question, carrying its code, its text and the session's language |
| QuizSession.EvaluationRequestsExactlyOnce | app/compiler/page.tsx:326-339 | the batch covers every submitted question exactly once, in ascending id order |
| QuizSession.FinishOnlyAfterEvaluation | app/compiler/page.tsx:308-376 | `finishQuiz` is issued exactly when there were submissions, an owner address and a 2xx answer, and always right after the single batch sent |
| QuizSession.FinishEffects | app/compiler/page.tsx:371-377 | `finishQuiz`, then the navigation to the quiz tab only once it completes |
| QuizSession.EvaluationEffects | app/compiler/page.tsx:308-376 | nothing without submissions or an owner address; otherwise the one batch and, on 2xx only, the finish effects; `QuizSession.FinishOnlyAfterEvaluation` states the order |
| QuizSession.PreviousIndex | app/compiler/page.tsx:498-500 | the Previous update `max(0, i - 1)`; `QuizSession.NavigationStaysInRange` states its range |
| QuizSession.NextIndex | app/compiler/page.tsx:514-518 | the Next update `min(count - 1, i + 1)`; `QuizSession.NavigationStaysInRange` states its range |
| QuizSession.PreviousEnabled | app/compiler/page.tsx:501 | Previous is enabled exactly off the first question |
| QuizSession.NextEnabled | app/compiler/page.tsx:520 | Next is enabled exactly off the last question (so also with no questions) |
| QuizSession.RunOutput | app/compiler/page.tsx:190-200 | stdout, else stderr, for a 2xx answer; `Error: ` with the answer's error or "Compilation failed" for a non-2xx one; `Error: ` with the message when the call threw |
| QuizSession.IsBlank | app/compiler/page.tsx:275 | code that is only whitespace, as `!userCode.trim()` tests it |
| QuizSession.NavigationStaysInRange | app/compiler/page.tsx:498-520 | Previous and Next keep the pointer on a question; a disabled button's update would change nothing; an enabled one moves by exactly one |
| QuizSession.Session.constructor | app/compiler/page.tsx:79-139 | initial state: timer `duration * 60`, first question, nothing submitted, python; the start call is issued only for a real quiz id |
| QuizSession.Session.Tick | app/compiler/page.tsx:144-152 | counts down by one only while running and above zero; never goes negative |
| QuizSession.Session.TogglePause | app/compiler/page.tsx:222-224 | flips the pause flag only |
| QuizSession.Session.EditCode | app/compiler/page.tsx:209-211 | the buffer becomes the editor value, or "" when undefined |
| QuizSession.Session.ChangeLanguage | app/compiler/page.tsx:440 | sets the language only |
| QuizSession.Session.ChangeInput | app/compiler/page.tsx:559 | sets the stdin text only |
| QuizSession.Session.MoveTo | app/compiler/page.tsx:214-220 | a question change clears the buffer and the output; staying on the same question keeps them |
| QuizSession.Session.Previous | app/compiler/page.tsx:498-501 | moves to `max(0, i - 1)`, clearing the buffer only when it moved |
| QuizSession.Session.Next | app/compiler/page.tsx:515-520 | moves to `min(count - 1, i + 1)`, clearing the buffer only when it moved |
| QuizSession.Session.SubmitCurrentQuestion | app/compiler/page.tsx:274-306 | blank code or no question changes nothing; otherwise the code replaces any earlier submission for that question, and the attempted count grows only for a new one, so it always equals the number of submitted questions |
| QuizSession.Session.SubmitNoticeShown | app/compiler/page.tsx:299-305 | the delayed notice re-enables the submit button |
| QuizSession.Session.SubmitEnabled | app/compiler/page.tsx:508 | Submit is enabled while a question is shown and no submit is pending |
| QuizSession.Session.Run | app/compiler/page.tsx:170-203 | empty code sends nothing; otherwise one request with code, language and input, and the pane shows stdout, else stderr, else the error text |
| QuizSession.Session.EvaluateSubmissions | app/compiler/page.tsx:308-390 | the outcome follows submissions, owner and answer in that order; the effects are exactly the batch then, on 2xx, `finishQuiz`; the busy flag is clear afterwards |
| QuizSession.Session.FinishEnabled | app/compiler/page.tsx:530 | Finish is enabled while no evaluation is outstanding |
| QuizSession.Session.HandleFinishQuiz | app/compiler/page.tsx:392-433 | nothing without confirmation; with no submissions `finishQuiz` directly; otherwise the evaluation alone decides |
| QuizzesList.ButtonTextCases | app/Components/QuizzesList/page.tsx:185-189 | Start, Resume and Restart are each chosen by exactly one state of the two timestamps |
| QuizzesList.QuizButtonText | app/Components/QuizzesList/page.tsx:185-189 | Start without a start time, Resume while unfinished, otherwise Restart; `QuizzesList.ButtonTextCases` states each case both ways |
| QuizzesList.IsRestartable | app/Components/QuizzesList/page.tsx:191-193 | restartable exactly on the REGULAR list with a finish time |
| QuizzesList.AlreadySubmitted | app/Components/QuizzesList/page.tsx:198 | the handler refuses an ASSIGNED quiz with both timestamps |
| QuizzesList.StartDisabled | app/Components/QuizzesList/page.tsx:322-326 | the student button is disabled on the ASSIGNED list once both timestamps are set |
| QuizzesList.RestartLabelOnlyWhenRestartable | app/Components/QuizzesList/page.tsx:185-193 | on the REGULAR list the Restart label appears only on a restartable quiz; nothing is restartable on the ASSIGNED list |
| QuizzesList.StartGatingAgrees | app/Components/QuizzesList/page.tsx:196-201 | for ASSIGNED quizzes the disabled button and the handler's refusal agree; untyped rows are never refused |
| QuizzesList.CompilerPath | app/Components/QuizzesList/page.tsx:220 | the path is `/compiler?quizId=` followed by the decimal id |
| QuizzesList.HandleStartQuiz | app/Components/QuizzesList/page.tsx:195-221 | a submitted ASSIGNED quiz only warns; a Restart first issues the reset; navigation happens, last, unless the reset threw |
| QuizzesList.QuizzesOf | app/Components/QuizzesList/page.tsx:255 | the assignments' quizzes, in order |
| QuizzesList.DisplayedQuizzes | app/Components/QuizzesList/page.tsx:253-256 | the ASSIGNED list unwraps each assignment; the REGULAR list shows `userQuizzes`; missing data shows nothing |
| QuizzesList.AssignedListButtons | app/Components/QuizzesList/page.tsx:296-360 | on ownerless ASSIGNED rows there is no Delete or Set Rubric, only a teacher sees Edit, and a student's started row is disabled exactly when its details are viewable |
| QuizzesList.AssignVisible | app/Components/QuizzesList/page.tsx:262 | Assign shows only where the list asks for it and only for a teacher |
| QuizzesList.DetailsDisabled | app/Components/QuizzesList/page.tsx:296 | Show Details is disabled for a student's unfinished quiz on the ASSIGNED list |
| QuizzesList.EditVisible | app/Components/QuizzesList/page.tsx:300 | Edit shows for a teacher or for the owner, the session id counting as 0 when absent |
| QuizzesList.StartVisible | app/Components/QuizzesList/page.tsx:310 | the start button shows for students only |
| QuizzesList.DeleteVisible | app/Components/QuizzesList/page.tsx:341 | Delete shows on the REGULAR list only |
| QuizzesList.RubricVisible | app/Components/QuizzesList/page.tsx:360 | Set Rubric shows only to the quiz's owner |
| QuizzesList.RubricArgument | app/Components/QuizzesList/page.tsx:236 | the custom text is sent exactly for the "custom" type |
| QuizzesList.RubricDialog.constructor | app/Components/QuizzesList/page.tsx:151-154 | the dialog starts closed, with no quiz and the default rubric |
| QuizzesList.RubricDialog.Open | app/Components/QuizzesList/page.tsx:223-226 | remembers the quiz and opens the modal |
| QuizzesList.RubricDialog.SelectType | app/Components/QuizzesList/page.tsx:411 | sets the chosen rubric type |
| QuizzesList.RubricDialog.EditCustomRubric | app/Components/QuizzesList/page.tsx:435 | sets the custom text |
| QuizzesList.RubricDialog.Save | app/Components/QuizzesList/page.tsx:228-246 | no quiz (or id 0) does nothing; otherwise one mutation call, then success closes the modal, failure keeps it open |
| EditQuiz.Ids | app/Components/EditQuiz/page.tsx:136 | the rows' ids, in order |
| EditQuiz.InitialSelection | app/Components/EditQuiz/page.tsx:134-137 | the selection starts as the quiz's question ids, in order |
| EditQuiz.Without | app/Components/EditQuiz/page.tsx:192 | removes every copy of the id and keeps all other ids in order |
| EditQuiz.Toggle | app/Components/EditQuiz/page.tsx:189-197 | a selected id is removed; an unselected one is appended; membership flips |
| EditQuiz.WithoutAbsent | app/Components/EditQuiz/page.tsx:192 | removing an unselected id changes nothing |
| EditQuiz.ToggleTwiceRestores | app/Components/EditQuiz/page.tsx:189-197 | toggling an unselected id twice restores the selection |
| EditQuiz.ToggleTwiceMovesToEnd | app/Components/EditQuiz/page.tsx:189-197 | toggling a selected id twice moves it to the end and keeps the rest in order |
| EditQuiz.SelectionAfterDelete | app/Components/EditQuiz/page.tsx:199-211 | after a delete call that returns, the id is gone; a thrown call leaves the selection |
| EditQuiz.SourceList | app/Components/EditQuiz/page.tsx:213-215 | the regular tab lists the regular questions; any other tab lists the custom ones |
| EditQuiz.PageSlice | app/Components/EditQuiz/page.tsx:217-219 | `slice((p - 1) * 10, (p - 1) * 10 + 10)`; `EditQuiz.PageSliceWindow` states the window |
| EditQuiz.PageSliceWindow | app/Components/EditQuiz/page.tsx:217-219 | a page has at most ten rows, the window starting at `(p - 1) * 10`, clipped to the list |
| EditQuiz.ConsecutivePagesAdjacent | app/Components/EditQuiz/page.tsx:217-219 | two consecutive pages are one contiguous window of twenty rows |
| EvaluateQuiz.ValidationError | app/api/evaluate-quiz/route.ts:46-62 | a missing, non-array or empty batch gets the first 400; otherwise a falsy owner e-mail gets the second |
| EvaluateQuiz.ContainsBetween | app/api/evaluate-quiz/route.ts:108-117 | a text occurs in anything built around it |
| EvaluateQuiz.PromptHeadCarriesSubmission | app/api/evaluate-quiz/route.ts:108-117 | the prompt's head carries the question text and the code |
| EvaluateQuiz.HeadThenRest | app/api/evaluate-quiz/route.ts:108-158 | whatever follows the head, the prompt opens with it and carries question and code |
| EvaluateQuiz.PromptCarriesSubmission | app/api/evaluate-quiz/route.ts:107-159 | every prompt carries the question and the code; a custom rubric's text is in it; otherwise the default 1-5 scale follows the head |
| EvaluateQuiz.RubricPart | app/api/evaluate-quiz/route.ts:119-157 | the owner's instructions for a stored custom rubric with text, otherwise the default 1-5 scale and response format |
| EvaluateQuiz.Prompt | app/api/evaluate-quiz/route.ts:107-159 | the prompt head followed by the rubric part; `EvaluateQuiz.PromptCarriesSubmission` states what it carries |
| EvaluateQuiz.Evaluate | app/api/evaluate-quiz/route.ts:93-168 | the model's answer when lookup and call succeed; otherwise the error text after a fixed prefix, so a grading failure never fails the batch |
| EvaluateQuiz.Results | app/api/evaluate-quiz/route.ts:65-75 | one result per submission, in order, copying its fields and adding its grade |
| EvaluateQuiz.EmailSubjectNamesQuiz | app/api/evaluate-quiz/route.ts:176 | the subject names the quiz by its decimal id between fixed texts |
| EvaluateQuiz.EmailSubject | app/api/evaluate-quiz/route.ts:176 | `Quiz #<id> - Student Submission Evaluation`; `EvaluateQuiz.EmailSubjectNamesQuiz` states that the id reads back |
| EvaluateQuiz.EmailHeader | app/api/evaluate-quiz/route.ts:179-184 | the title naming the quiz, the notice, and the batch's language |
| EvaluateQuiz.EmailSection | app/api/evaluate-quiz/route.ts:187-200 | the block for one result: its number from 1, question text, code and evaluation |
| EvaluateQuiz.AppendedPrefix | app/api/evaluate-quiz/route.ts:187-200 | text written after the first blocks is a prefix of the text written after all of them |
| EvaluateQuiz.BuildEmailContent | app/api/evaluate-quiz/route.ts:179-205 | the loop writes header, one block per result, then the footer |
| EvaluateQuiz.AppendedLayout | app/api/evaluate-quiz/route.ts:187-200 | each block sits right after the blocks before it |
| EvaluateQuiz.EmailBodyLayout | app/api/evaluate-quiz/route.ts:179-205 | the body opens with the header, holds every result's block, numbered from 1, in order, and ends with the footer |
| EvaluateQuiz.PrefixExtended | app/api/evaluate-quiz/route.ts:203-205 | a prefix stays a prefix when the footer is appended |
| EvaluateQuiz.EmailBody | app/api/evaluate-quiz/route.ts:179-205 | header, one block per result, then the closing paragraph; `EvaluateQuiz.EmailBodyLayout` states the layout |
| EvaluateQuiz.HandlerOutcomes | app/api/evaluate-quiz/route.ts:41-91 | a rejected batch gets its 400 and mails nothing; success is reported exactly when the mail to the owner went out; a throwing transport gives 500 with its message, or the default |
| EvaluateQuiz.ResponseFor | app/api/evaluate-quiz/route.ts:46-90 | the validation 400, else 200 once the mail went out, else 500 with the thrown message or the default |
| EvaluateQuiz.MailFor | app/api/evaluate-quiz/route.ts:208-213 | no mail for a rejected batch; otherwise the body to the owner under the quiz subject |
| EvaluateQuiz.ComposeMail | app/api/evaluate-quiz/route.ts:170-214 | the mail of an accepted batch: to the owner, the quiz subject, the graded body |
| EvaluateQuiz.Post | app/api/evaluate-quiz/route.ts:41-91 | the response and the mail handed to the transport are those of the handler specification |
| CompileRoute.LanguageMap | app/api/compile/route.ts:3-8 | exactly the four keys c, cpp, python and java are supported |
| CompileRoute.LanguageMapEntries | app/api/compile/route.ts:3-8 | each key's runtime name and version |
| CompileRoute.BuildPayload | app/api/compile/route.ts:22-32 | one file named `main` holding the code, the runtime's name and version, and the input as stdin |
| CompileRoute.RuntimeOf | app/api/compile/route.ts:13-20 | the table entry for the request's language, none when absent or unsupported |
| CompileRoute.Compile | app/api/compile/route.ts:10-51 | an unreadable body gives 500; an unknown language 400 with nothing sent; otherwise the payload is sent and the reply's `run` comes back, or 500 when the call threw |
| CompileRoute.RequestOnlyForSupportedLanguage | app/api/compile/route.ts:15-43 | a request goes out exactly for the four keys; a run report comes only from an answered request |
| Auth.Authorize | app/lib/auth.ts:31-59 | accepts exactly present credentials of a known user with a stored password that matches; returns that user's fields with the id as decimal text |
| Auth.SignIn | app/lib/auth.ts:63-69 | every sign-in is allowed |
| Auth.Redirect | app/lib/auth.ts:70-73 | every redirect goes to the base URL plus `/CommonDashboard` |
| Auth.JwtRoleCases | app/lib/auth.ts:89-106 | with a user the role is theirs, or PENDING when empty; Google alone gives PENDING; otherwise the role is kept |
| Auth.JwtRole | app/lib/auth.ts:96-103 | Google sets PENDING, then a user's role, or PENDING when empty, wins; `Auth.JwtRoleCases` states each case |
| Auth.Token.constructor | app/lib/auth.ts:89 | the token holds the given subject and role |
| Auth.Token.Jwt | app/lib/auth.ts:96-103 | the two in-place assignments leave the role `JwtRole` describes |
| Auth.SessionRole | app/lib/auth.ts:85 | the token's role, or STUDENT when it has none; never empty |
| Auth.SessionUser.constructor | app/lib/auth.ts:74 | the session user holds the given id and role |
| Auth.SessionUser.Session | app/lib/auth.ts:74-88 | copies the token's subject when it has one; always sets the role |
| Auth.SignedInRoleReachesSession | app/lib/auth.ts:85-103 | a signed-in user's role reaches the session unchanged; an empty one shows as PENDING, never STUDENT |
| Signup.FullName | app/api/signup/route.ts:55 | first name, one space, last name, an absent part reading `undefined` |
| Signup.StoredRole | app/api/signup/route.ts:57 | TEACHER exactly for "teacher"; STUDENT otherwise |
| Signup.StoredPassword | app/api/signup/route.ts:47-56 | the hash of a non-empty password, else "" |
| Signup.SignupUser | app/api/signup/route.ts:11-71 | 500 without a connection or an e-mail, 400 for a registered e-mail, otherwise the new user; `Signup.SignupOutcomes` states the outcomes |
| Signup.SignupOutcomes | app/api/signup/route.ts:11-71 | no connection gives 500; a registered e-mail gives 400; otherwise a user is created with status 201 and a fresh e-mail, so the registered e-mails grow by exactly one |
| AssignmentVerify.LeadingDigits | app/api/assignments/verify/route.ts:34 | the longest digit prefix |
| AssignmentVerify.ParseUserId | app/api/assignments/verify/route.ts:34 | a number exactly when the id starts with a digit; its value is that of the leading digits |
| AssignmentVerify.ParseUserIdOfDecimal | app/api/assignments/verify/route.ts:34 | a decimal id parses back to itself |
| AssignmentVerify.AllDigitsLeading | app/api/assignments/verify/route.ts:34 | an all-digit text is its own digit prefix |
| AssignmentVerify.FirstUnusedAsWritten | app/api/assignments/verify/route.ts:17-22 | the lookup as written: the first unused assignment, with the link filter only when a link is present (see Findings) |
| AssignmentVerify.MissingLinkMatchesAnyUnused | app/api/assignments/verify/route.ts:10-22 | a body without a link consumes the first unused assignment of any link; the corrected lookup finds nothing |
| AssignmentVerify.FirstUnused | app/api/assignments/verify/route.ts:17-22 | the first unused assignment with exactly this link; none without a link |
| AssignmentVerify.Consumed | app/api/assignments/verify/route.ts:29-36 | the row is marked used, the student joins it, and its id, quiz and link are kept |
| AssignmentVerify.SecondVerificationFails | app/api/assignments/verify/route.ts:17-36 | once a link is consumed, presenting it again finds nothing |
| AssignmentVerify.LinkStore.constructor | app/api/assignments/verify/route.ts:5 | the store holds the given rows and user ids |
| AssignmentVerify.LinkStore.Verify | app/api/assignments/verify/route.ts:7-46 | 401 without a student session; 400 without an unused row for the link; success exactly when the id parses and names a user; success consumes that one row only; every refusal changes nothing |
| Practise.NextIndex | app/Practise/page.tsx:74-78 | one step forward unless on the last question |
| Practise.BackIndex | app/Practise/page.tsx:80-84 | one step back unless on the first |
| Practise.ReplayStaysInRange | app/Practise/page.tsx:71-84 | any run of presses from a valid index stays on a question |
| Practise.InitialIndexInRange | app/Practise/page.tsx:71 | the initial index 0 stays valid under any run of presses |
| Practise.NextThenBack | app/Practise/page.tsx:74-84 | Next then Back, and Back then Next, give back the index away from the ends; the ends are fixed points |
| Practise.Replay | app/Practise/page.tsx:71-84 | the index after a run of Next and Back presses; `Practise.ReplayStaysInRange` states its range |
| Practise.ToLower | app/Practise/page.tsx:181-182 | lower-cases character by character, keeping the length |
| Practise.Render | app/Practise/page.tsx:86-174 | a view exactly for the three keys; anything else renders nothing |
| Practise.LowerPractice | app/Practise/page.tsx:179-182 | "Practice" selects "practice" |
| Practise.LowerQuizzes | app/Practise/page.tsx:179-182 | "Quizzes" selects "quizzes" |
| Practise.LowerAssigned | app/Practise/page.tsx:179-182 | "Assigned" selects "assigned" |
| Practise.SelectTab | app/Practise/page.tsx:183 | a click selects the lower-cased label |
| Practise.Highlighted | app/Practise/page.tsx:182 | a button is highlighted exactly when the active tab is its lower-cased label |
| Practise.TabsSelectThemselves | app/Practise/page.tsx:179-184 | a click on any label renders a view and highlights exactly that button; the initial tab is the first label's |
| CustomQuestions.FilteredQuestions | app/Components/CustomQuestions/page.tsx:103-109 | nothing without data; everything without a selected subject; otherwise exactly the selected subject's questions, in order |
| CustomQuestions.FilterIdempotent | app/Components/CustomQuestions/page.tsx:103-109 | filtering again with the same selection changes nothing |
| CustomQuestions.FindSubject | app/Components/CustomQuestions/page.tsx:94 | the found subject is in the list with that id; none found means no subject has it |
| CustomQuestions.HandleSubjectChange | app/Components/CustomQuestions/page.tsx:91-100 | records the selection, clears the chosen topics, and loads the chosen subject's topics, or none |
| CustomQuestions.SubjectTopicsBelongToSubject | app/Components/CustomQuestions/page.tsx:91-100 | loaded topics are those of a listed subject with the chosen id |
| CustomQuestions.HandleSubmit | app/Components/CustomQuestions/page.tsx:123-143 | a mutation is issued exactly for an authenticated session, with the form's fields and untouched topics as an empty list |
| CppSnippets.SnippetPrefixIsKey | app/utils/cppSnippets.ts:1-37 | seven snippets, each triggered by its own key |
| CppSnippets.LibrariesWellFormed | app/utils/cppSnippets.ts:39-50 | ten distinct header names in angle brackets |
| CppSnippets.IncludeLine | app/utils/cppSnippets.ts:52 | `#include ` followed by the header |
| CppSnippets.IncludeLines | app/utils/cppSnippets.ts:52 | one include line per header, in order |
| CppSnippets.SplitLines | app/utils/cppSnippets.ts:52 | cutting at newlines gives at least one line |
| CppSnippets.SplitLinesPrefix | app/utils/cppSnippets.ts:52 | a newline-free prefix joins the first line |
| CppSnippets.SplitJoin | app/utils/cppSnippets.ts:52 | joining newline-free lines with "\n" and cutting again gives the lines back |
| CppSnippets.IncludeLinesNoNewline | app/utils/cppSnippets.ts:52 | no include line contains a newline |
| CppSnippets.Join | app/utils/cppSnippets.ts:52 | `join("\n")`; `CppSnippets.SplitJoin` proves that cutting at newlines inverts it |
| CppSnippets.CommonHeaders | app/utils/cppSnippets.ts:52 | the include lines joined by newlines; `CppSnippets.CommonHeadersLines` states its lines |
| CppSnippets.CommonHeadersLines | app/utils/cppSnippets.ts:52 | the header block is exactly the ten include lines, in order |
| EditorConfig.WordRange | app/utils/editorConfig.ts:12-18 | a single-line range on the cursor's line spanning the word |
| EditorConfig.SnippetSuggestions | app/utils/editorConfig.ts:21-28 | one suggestion per snippet: its key, body and description |
| EditorConfig.LibrarySuggestion | app/utils/editorConfig.ts:31-38 | the label `include <lib>` and the header's include line as the inserted text |
| EditorConfig.LibrarySuggestions | app/utils/editorConfig.ts:31-38 | one suggestion per header, in order |
| EditorConfig.ProvideCompletionItems | app/utils/editorConfig.ts:10-42 | the snippet suggestions then the library suggestions on the word range; `EditorConfig.CompletionItemsLayout` states the layout |
| EditorConfig.CompletionItemsLayout | app/utils/editorConfig.ts:11-41 | seventeen items on one shared range: the snippets labelled by their keys, then the headers, each inserting its line of the header block |
| EditorConfig.SetupEditor | app/utils/editorConfig.ts:3-46 | nothing without both editor and library; otherwise the three `cpp` registrations, in order |
| Common.NatToString | app/api/evaluate-quiz/route.ts:176 | JavaScript's decimal rendering of a natural number: digits only, no leading zero except for 0, reading back to the number |
| Common.PadStart2 | app/compiler/page.tsx:159-161 | `padStart(2, "0")`: a zero in front of a one-character text, longer texts unchanged |
| Common.PadStart2Value | app/compiler/page.tsx:159-161 | padding a non-empty digit text gives at least two digits of the same value, and leaves a two-digit text as it is |
| Common.JsSlice | app/graphql/resolvers/resolvers.ts:414 | `slice` with JavaScript's negative and clipped bounds: never longer than the list |
| Common.Filter | app/Components/EditQuiz/page.tsx:192 | `filter`: an ordered subsequence holding exactly the elements that satisfy the predicate |
| Common.FilterCount | app/Components/EditQuiz/page.tsx:192 | `filter` keeps each satisfying element as often as it occurs and drops every other |

## Findings

| source | as written | input that shows it | evidently intended | confidence | as-written member | corrected member |
|---|---|---|---|---|---|---|
| app/graphql/resolvers/resolvers.ts:378-382 | `createQuiz` compares the number of topic rows found with the number of ids requested | `topicIds = [t, t]` for an existing topic `t`: one row is found for two ids, and the request fails with "One or more selected topics were not found: " and an empty list | refuse only ids that name no topic | high (not executed) | Resolvers.TopicCheckAsWritten, Resolvers.RepeatedTopicRejected | Resolvers.TopicCheck (used by Resolvers.PlanQuiz) |
| app/api/assignments/verify/route.ts:10-22 | the lookup filters on `shareableLink` from the body; when the body has no such field the filter is undefined, which the ORM ignores | a body `{}` from a student session, with any unused assignment stored: that assignment is consumed | a missing link matches nothing | medium (not executed) | AssignmentVerify.FirstUnusedAsWritten, AssignmentVerify.MissingLinkMatchesAnyUnused | AssignmentVerify.FirstUnused (used by AssignmentVerify.LinkStore.Verify) |

## Left out

- **Outside services.** Database I/O, the language model, the mail transport, bcrypt and the code runner are parameters or outcome values. Their own behaviour is not modelled.
- **Connection and time.** Timeouts, transaction options, `$connect`/`$disconnect`, and the asynchronous interleaving of the pages' callbacks are not modelled. Each handler runs to completion, with its awaited answers as parameters.
- **Time and dates.** Instants are natural numbers. The `DateTime` scalar, `new Date()` and the formatting of negative durations are not modelled.
- **Randomness.** `Math.random()` in the question sort is replaced by a permutation argument. A comparator that yields no permutation is not modelled: the query order is kept.
- **Read-only queries and pure UI.** The GraphQL queries (`subjects`, `topics`, `questions`, `quizDetails`, `userQuizzes`, …) and rendering (modals, toasts' wording beyond the effects log, theme, font size) are not modelled. `app/graphql/resolvers/resolvers.ts:71-330` is plain lookups.
- **`createCustomQuestion`** (`resolvers.ts:782-808`) stores the form's fields. Its guard and its input shape are modelled on the client side (`CustomQuestions.HandleSubmit`). The insert itself is not modelled.
- **`handleSaveQuestions`** (`EditQuiz/page.tsx:175-187`) sends the current selection unchanged and reloads the window. It adds nothing beyond `EditQuiz.Toggle`/`SelectionAfterDelete`.
- **Unused editor code.** `getCompletionItems` (`editorConfig.ts:75-136`) is never called, and `cppLanguageConfig` (`editorConfig.ts:48-72`) is static editor data. Neither is modelled. The editor library's registration calls are abstract effects.
- **The chat route** (`app/api/chat/route.ts`) is not part of this model.
- **JSON parse failures.** Only `CompileRoute` models them, as an absent body. Elsewhere a malformed body is assumed not to occur. Object prototype keys (`"toString"` as a language) are not modelled.
- **Ids are natural numbers.** Negative ids, and `parseInt`'s handling of leading whitespace, signs and `0x` hexadecimal prefixes, are not modelled.
- **Signup.SignupOutcomes:** a failure of `prisma.user.create` itself (the 500 at `signup/route.ts:62-67` for any thrown error other than the missing e-mail) is not modelled.
- **AssignmentVerify.LinkStore.Verify:** the catch-all 500 is modelled only for a session id that does not parse or names no user. Other thrown database errors are not modelled.
- **Practise.Render:** the practice view with an empty question list (`questions[0]` undefined) is not modelled. The question data is a fixed non-empty list.
- QuizSession.Session.Next: requires a non-empty question list. With no questions (also while they load) the page does reach index -1: the button is disabled only when `currentQuestion === questions.length - 1`, which is `0 === -1`, so it stays enabled and its update `Math.min(-1, 1)` sets the pointer to -1. The model excludes this case.
