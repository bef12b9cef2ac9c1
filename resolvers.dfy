/**
 * The GraphQL mutations that change quizzes and assignments, over an
 * in-memory store standing in for the database: quiz creation (topic
 * validation, the candidate-question filter, the size of the random
 * selection), claiming an assignment link, deletion, the three lifecycle
 * timestamps, the rubric, and editing a quiz's question set.
 *
 * Every mutation first checks the session's e-mail. Database rows are
 * records in the store; an update of a missing row fails as the ORM does.
 */
module Resolvers {
  import opened Common

  datatype Result<T> = Ok(value: T) | Error(failure: Failure)

  datatype QuizType = Regular | Assigned

  datatype User = User(id: nat, email: string)

  datatype Question = Question(id: nat, topicId: nat, subjectId: nat, difficulty: string, year: int)

  datatype QuizRecord = QuizRecord(
    ownerId: nat,
    title: string,
    subjectId: nat,
    topicIds: set<nat>,
    questionIds: set<nat>,
    numberOfQuestions: int,
    duration: int,
    yearStart: int,
    yearEnd: int,
    kind: QuizType,
    startTime: Option<nat>,
    finishedAt: Option<nat>,
    rubricType: Option<string>,
    customRubric: Option<string>)

  /** A shareable link binding a quiz to the students who claimed it. */
  datatype Assignment = Assignment(id: nat, quizId: nat, shareableLink: string, users: set<nat>)

  datatype CreateQuizInput = CreateQuizInput(
    topicIds: seq<nat>,
    difficulty: string,
    duration: int,
    numberOfQuestions: int,
    yearStart: int,
    yearEnd: int,
    name: string)

  /** An optional GraphQL argument: left out, explicitly null, or given. */
  datatype NullableArg = Absent | Null | Given(text: string)

  /** Why a mutation was refused; `Message` gives the text the client sees. */
  datatype Failure =
    | MustBeAuthenticated
    | NotAuthenticated
    | LoginRequired
    | UserNotFound
    | NoTopic
    | TopicsNotFound(missing: seq<nat>)
    | MixedSubjects
    | NoQuestionsAvailable
    | InvalidLink
    | AlreadyAssigned
    | QuizNotFound
    | OnlyDeleteOwn
    | AssignedToStudents
    | OnlyRubricOwn
    | OnlyUpdateOwn
    /** The ORM's error for an update, connect or set naming a row that does not exist. */
    | RecordNotFound

  const TopicsNotFoundPrefix := "One or more selected topics were not found: "

  /** The error message of each failure; a missing-topics message lists the missing ids after a fixed prefix. */
  function Message(f: Failure): (m: string)
    ensures f.TopicsNotFound? ==>
      && |m| == |TopicsNotFoundPrefix| + |JoinIds(f.missing)|
      && m[..|TopicsNotFoundPrefix|] == TopicsNotFoundPrefix
      && m[|TopicsNotFoundPrefix|..] == JoinIds(f.missing)
  {
    match f
    case MustBeAuthenticated => "User must be authenticated"
    case NotAuthenticated => "Not authenticated"
    case LoginRequired => "Please login to access this quiz"
    case UserNotFound => "User not found"
    case NoTopic => "Please select at least one topic."
    case TopicsNotFound(missing) => TopicsNotFoundPrefix + JoinIds(missing)
    case MixedSubjects => "All selected topics must belong to the same subject."
    case NoQuestionsAvailable => "No questions available for the selected criteria. Please try different options."
    case InvalidLink => "Invalid quiz link"
    case AlreadyAssigned => "You have already been assigned this quiz"
    case QuizNotFound => "Quiz not found"
    case OnlyDeleteOwn => "You can only delete your own quizzes"
    case AssignedToStudents => "Cannot delete quiz as it has been assigned to students"
    case OnlyRubricOwn => "You can only set rubrics for your own quizzes"
    case OnlyUpdateOwn => "You can only update your own quizzes"
    case RecordNotFound => "Record to update not found."
  }

  /** `!session?.user?.email`: no session, or an empty address. */
  predicate Authenticated(sessionEmail: Option<string>) {
    sessionEmail.Some? && sessionEmail.value != ""
  }

  function FindUserByEmail(users: seq<User>, email: string): (r: Option<User>)
    ensures r.Some? ==> r.value in users && r.value.email == email
    ensures r.None? ==> forall i :: 0 <= i < |users| ==> users[i].email != email
  {
    if users == [] then None
    else if users[0].email == email then Some(users[0])
    else FindUserByEmail(users[1..], email)
  }

  function FindUserById(users: seq<User>, id: nat): (r: Option<User>)
    ensures r.Some? ==> r.value in users && r.value.id == id
    ensures r.None? ==> forall i :: 0 <= i < |users| ==> users[i].id != id
  {
    if users == [] then None
    else if users[0].id == id then Some(users[0])
    else FindUserById(users[1..], id)
  }

  /** `ids.join(", ")` over decimal renderings. */
  function JoinIds(ids: seq<nat>): string {
    if ids == [] then ""
    else if |ids| == 1 then NatToString(ids[0])
    else NatToString(ids[0]) + ", " + JoinIds(ids[1..])
  }

  // ---------------------------------------------------------------------------
  // Topic validation
  // ---------------------------------------------------------------------------

  /** The distinct ids of `topicIds` that name a topic (the rows `findMany` returns). */
  function FoundTopics(topics: map<nat, nat>, topicIds: seq<nat>): set<nat> {
    set id | id in topicIds && id in topics
  }

  /** The requested ids that name no topic, in request order, each as often as it was requested. */
  function MissingTopics(topics: map<nat, nat>, topicIds: seq<nat>): (r: seq<nat>)
    ensures forall i :: 0 <= i < |r| ==> r[i] in topicIds && r[i] !in topics
    ensures forall i :: 0 <= i < |topicIds| && topicIds[i] !in topics ==> topicIds[i] in r
    ensures IsSubsequence(r, topicIds)
    ensures forall x :: multiset(r)[x] == (if x !in topics then multiset(topicIds)[x] else 0)
  {
    FilterCount(topicIds, id => id !in topics);
    Filter(topicIds, id => id !in topics)
  }

  predicate SameSubject(topics: map<nat, nat>, topicIds: seq<nat>, subjectId: nat) {
    forall i :: 0 <= i < |topicIds| && topicIds[i] in topics ==> topics[topicIds[i]] == subjectId
  }

  /**
   * The topic checks of `createQuiz` as written: the number of topic rows
   * found is compared with the number of ids requested. A repeated id makes
   * the two differ although every topic exists.
   */
  function TopicCheckAsWritten(topics: map<nat, nat>, topicIds: seq<nat>): (r: Result<nat>)
    ensures r.Ok? ==> topicIds != [] && SameSubject(topics, topicIds, r.value)
  {
    if topicIds == [] then Error(NoTopic)
    else if |FoundTopics(topics, topicIds)| != |topicIds| then
      Error(TopicsNotFound(MissingTopics(topics, topicIds)))
    else
      DistinctFoundAllExist(topics, topicIds);
      var first := topics[topicIds[0]];
      if SameSubject(topics, topicIds, first) then Ok(first) else Error(MixedSubjects)
  }

  /**
   * The corrected topic checks: at least one id, every id names a topic
   * (the error lists exactly the missing ones), and one common subject,
   * which becomes the quiz's subject.
   */
  function TopicCheck(topics: map<nat, nat>, topicIds: seq<nat>): (r: Result<nat>)
    ensures r.Ok? <==>
      && topicIds != []
      && (forall i :: 0 <= i < |topicIds| ==> topicIds[i] in topics)
      && SameSubject(topics, topicIds, topics[topicIds[0]])
    ensures r.Ok? ==> r.value == topics[topicIds[0]] && SameSubject(topics, topicIds, r.value)
    ensures topicIds == [] ==> r == Error(NoTopic)
    ensures topicIds != [] && MissingTopics(topics, topicIds) != [] ==>
      r == Error(TopicsNotFound(MissingTopics(topics, topicIds)))
  {
    if topicIds == [] then Error(NoTopic)
    else
      var missing := MissingTopics(topics, topicIds);
      if missing != [] then Error(TopicsNotFound(missing))
      else
        assert forall i :: 0 <= i < |topicIds| ==> topicIds[i] in topics;
        var first := topics[topicIds[0]];
        if SameSubject(topics, topicIds, first) then Ok(first) else Error(MixedSubjects)
  }

  predicate Distinct(ids: seq<nat>) {
    forall i, j :: 0 <= i < j < |ids| ==> ids[i] != ids[j]
  }

  /** The distinct elements of a list. */
  function Elements(ids: seq<nat>): set<nat> {
    set id | id in ids
  }

  lemma ElementsCons(ids: seq<nat>)
    requires ids != []
    ensures Elements(ids) == {ids[0]} + Elements(ids[1..])
  {
  }

  /** A list has at least as many entries as distinct elements. */
  lemma {:induction false} ElementsAtMostLength(ids: seq<nat>)
    ensures |Elements(ids)| <= |ids|
  {
    if ids != [] {
      ElementsCons(ids);
      ElementsAtMostLength(ids[1..]);
    }
  }

  /** The elements of a list without repetitions are exactly as many as its length. */
  lemma {:induction false} DistinctCardinality(ids: seq<nat>)
    requires Distinct(ids)
    ensures |Elements(ids)| == |ids|
  {
    if ids != [] {
      var tail := ids[1..];
      assert Distinct(tail) by {
        forall i, j | 0 <= i < j < |tail| ensures tail[i] != tail[j] {
          assert tail[i] == ids[i + 1] && tail[j] == ids[j + 1];
        }
      }
      DistinctCardinality(tail);
      ElementsCons(ids);
      assert ids[0] !in Elements(tail);
    }
  }

  /** Leaving out one element of a list leaves fewer distinct elements than entries. */
  lemma ElementsWithout(ids: seq<nat>, m: nat, s: set<nat>)
    requires m in ids && m !in s && s <= Elements(ids)
    ensures |s| < |ids|
  {
    assert m in Elements(ids);
    SubsetCardinality(s, Elements(ids) - {m});
    ElementsAtMostLength(ids);
  }

  lemma {:induction false} SubsetCardinality(a: set<nat>, b: set<nat>)
    requires a <= b
    ensures |a| <= |b|
  {
    if a != {} {
      var x :| x in a;
      SubsetCardinality(a - {x}, b - {x});
    }
  }

  /** When as many rows as ids are found, every id names a topic. */
  lemma DistinctFoundAllExist(topics: map<nat, nat>, topicIds: seq<nat>)
    requires |FoundTopics(topics, topicIds)| == |topicIds|
    ensures forall i :: 0 <= i < |topicIds| ==> topicIds[i] in topics
  {
    forall i | 0 <= i < |topicIds| ensures topicIds[i] in topics {
      if topicIds[i] !in topics {
        ElementsWithout(topicIds, topicIds[i], FoundTopics(topics, topicIds));
      }
    }
  }

  /** On requests without repeated ids the written check and the corrected one agree. */
  lemma AsWrittenAgreesOnDistinct(topics: map<nat, nat>, topicIds: seq<nat>)
    requires Distinct(topicIds)
    ensures TopicCheckAsWritten(topics, topicIds) == TopicCheck(topics, topicIds)
  {
    if topicIds != [] {
      var found := FoundTopics(topics, topicIds);
      var missing := MissingTopics(topics, topicIds);
      if missing == [] {
        assert found == Elements(topicIds);
        DistinctCardinality(topicIds);
      } else {
        ElementsWithout(topicIds, missing[0], found);
      }
    }
  }

  /**
   * A request naming an existing topic twice is refused by the written
   * check, with an empty list of missing topics, while the corrected check
   * accepts it.
   */
  lemma RepeatedTopicRejected(topics: map<nat, nat>, t: nat)
    requires t in topics
    ensures TopicCheckAsWritten(topics, [t, t]) == Error(TopicsNotFound([]))
    ensures TopicCheck(topics, [t, t]) == Ok(topics[t])
  {
    assert FoundTopics(topics, [t, t]) == {t};
    assert |FoundTopics(topics, [t, t])| == 1;
    assert MissingTopics(topics, [t, t]) == [];
  }

  // ---------------------------------------------------------------------------
  // Question selection
  // ---------------------------------------------------------------------------

  /** The `findMany` filter on questions. */
  predicate IsCandidate(q: Question, topicIds: seq<nat>, difficulty: string, yearStart: int, yearEnd: int,
                        subjectId: nat) {
    q.topicId in topicIds && q.difficulty == difficulty && yearStart <= q.year <= yearEnd && q.subjectId == subjectId
  }

  function Candidates(questions: seq<Question>, topicIds: seq<nat>, difficulty: string, yearStart: int,
                      yearEnd: int, subjectId: nat): (r: seq<Question>)
    ensures forall q :: q in r <==> q in questions && IsCandidate(q, topicIds, difficulty, yearStart, yearEnd, subjectId)
    ensures IsSubsequence(r, questions)
  {
    var r := Filter(questions, q => IsCandidate(q, topicIds, difficulty, yearStart, yearEnd, subjectId));
    assert forall q :: q in questions && IsCandidate(q, topicIds, difficulty, yearStart, yearEnd, subjectId) ==> q in r by {
      forall q | q in questions && IsCandidate(q, topicIds, difficulty, yearStart, yearEnd, subjectId)
        ensures q in r
      {
        var i :| 0 <= i < |questions| && questions[i] == q;
      }
    }
    r
  }

  /** `perm` lists each index below `n` exactly once. */
  predicate IsIndexPermutation(perm: seq<nat>, n: nat) {
    && |perm| == n
    && (forall i :: 0 <= i < n ==> perm[i] < n)
    && (forall i, j :: 0 <= i < j < n ==> perm[i] != perm[j])
  }

  /**
   * The random sort, with the order it produced as a parameter: the
   * candidates rearranged by `perm`. (An argument that is no permutation
   * leaves the query order.)
   */
  function Shuffle(candidates: seq<Question>, perm: seq<nat>): (r: seq<Question>)
    ensures |r| == |candidates|
    ensures forall i :: 0 <= i < |r| ==> r[i] in candidates
    ensures DistinctQuestions(candidates) ==> DistinctQuestions(r)
  {
    if IsIndexPermutation(perm, |candidates|) then
      seq(|candidates|, i requires 0 <= i < |candidates| => candidates[perm[i]])
    else candidates
  }

  predicate DistinctQuestions(qs: seq<Question>) {
    forall i, j :: 0 <= i < j < |qs| ==> qs[i] != qs[j]
  }

  /** The questions put in the quiz. */
  function Selection(candidates: seq<Question>, perm: seq<nat>, n: int): seq<Question> {
    JsSlice(Shuffle(candidates, perm), 0, Min(n, |candidates|))
  }

  /**
   * The selection holds only candidates, never the same one twice, and as
   * many as requested unless fewer are available.
   */
  lemma SelectionIsBoundedSubset(candidates: seq<Question>, perm: seq<nat>, n: int)
    requires DistinctQuestions(candidates)
    ensures var s := Selection(candidates, perm, n);
      && (forall i :: 0 <= i < |s| ==> s[i] in candidates)
      && DistinctQuestions(s)
      && |s| <= |candidates|
      && (n >= 0 ==> |s| == Min(n, |candidates|))
      && (n < 0 ==> |s| == (if |candidates| + n > 0 then |candidates| + n else 0))
  {
  }

  /** Filtering a list without repetitions gives a list without repetitions. */
  lemma {:induction false} FilterDistinct(qs: seq<Question>, p: Question -> bool)
    requires DistinctQuestions(qs)
    ensures DistinctQuestions(Filter(qs, p))
  {
    if qs != [] {
      FilterDistinct(qs[1..], p);
      var rest := Filter(qs[1..], p);
      if p(qs[0]) {
        assert qs[0] !in qs[1..] by {
          forall j | 0 <= j < |qs[1..]| ensures qs[1..][j] != qs[0] {
            assert qs[1..][j] == qs[j + 1];
          }
        }
        assert qs[0] !in rest;
        var r := [qs[0]] + rest;
        forall i, j | 0 <= i < j < |r| ensures r[i] != r[j] {
          if i == 0 {
            assert r[j] == rest[j - 1];
          }
        }
      }
    }
  }

  /** The row `quiz.create` inserts: owned by the caller, not yet holding questions. */
  function NewQuiz(ownerId: nat, input: CreateQuizInput, subjectId: nat, count: nat): QuizRecord {
    QuizRecord(ownerId, input.name, subjectId, set t | t in input.topicIds, {}, count,
               input.duration, input.yearStart, input.yearEnd, Regular, None, None, None, None)
  }

  /** The row once the selected questions are connected to it. */
  function CreatedQuiz(ownerId: nat, input: CreateQuizInput, subjectId: nat, selected: seq<Question>): QuizRecord {
    NewQuiz(ownerId, input, subjectId, |selected|).(questionIds := set q | q in selected :: q.id)
  }

  /**
   * The quiz `createQuiz` stores holds exactly the selected questions, as
   * many as it records, all drawn from the candidates; it is a REGULAR quiz
   * that has not been started.
   */
  lemma CreatedQuizHoldsSelection(ownerId: nat, input: CreateQuizInput, subjectId: nat,
                                  candidates: seq<Question>, perm: seq<nat>)
    requires DistinctQuestions(candidates)
    ensures var selected := Selection(candidates, perm, input.numberOfQuestions);
      var q := CreatedQuiz(ownerId, input, subjectId, selected);
      && q.numberOfQuestions == |selected| <= |candidates|
      && (input.numberOfQuestions >= 0 ==>
            q.numberOfQuestions == Min(input.numberOfQuestions, |candidates|))
      && (forall id :: id in q.questionIds ==> exists c :: c in candidates && c.id == id)
      && q.ownerId == ownerId && q.subjectId == subjectId && q.kind == Regular
      && q.startTime.None? && q.finishedAt.None?
      && q.topicIds == set t | t in input.topicIds
  {
    var selected := Selection(candidates, perm, input.numberOfQuestions);
    SelectionIsBoundedSubset(candidates, perm, input.numberOfQuestions);
    var q := CreatedQuiz(ownerId, input, subjectId, selected);
    forall id | id in q.questionIds ensures exists c :: c in candidates && c.id == id {
      var s :| s in selected && s.id == id;
      var k :| 0 <= k < |selected| && selected[k] == s;
      assert selected[k] in candidates;
    }
  }

  /**
   * The decisions of `createQuiz`, in its order: a session e-mail, a
   * known user, the topic checks, at least one candidate question; then
   * the quiz row, owned by that user, with the topics' common subject and
   * the selected candidates.
   */
  function PlanQuiz(users: seq<User>, topics: map<nat, nat>, questions: seq<Question>,
                    sessionEmail: Option<string>, input: CreateQuizInput, perm: seq<nat>): (r: Result<QuizRecord>)
    ensures r.Ok? ==> FindUserById(users, r.value.ownerId).Some?
  {
    if !Authenticated(sessionEmail) then Error(MustBeAuthenticated)
    else
      var user := FindUserByEmail(users, sessionEmail.value);
      if user.None? then Error(UserNotFound)
      else
        var check := TopicCheck(topics, input.topicIds);
        if check.Error? then Error(check.failure)
        else
          var candidates := Candidates(questions, input.topicIds, input.difficulty, input.yearStart,
                                       input.yearEnd, check.value);
          if |candidates| == 0 then Error(NoQuestionsAvailable)
          else
            MemberFoundById(users, user.value);
            Ok(CreatedQuiz(user.value.id, input, check.value,
                              Selection(candidates, perm, input.numberOfQuestions)))
  }

  /**
   * `createQuiz` refuses a missing session, an unknown user, every failed
   * topic check with that check's message, and an empty candidate list;
   * once all checks pass with candidates a quiz is planned, owned by the
   * signed-in user.
   */
  lemma PlanQuizOutcomes(users: seq<User>, topics: map<nat, nat>, questions: seq<Question>,
                         sessionEmail: Option<string>, input: CreateQuizInput, perm: seq<nat>)
    ensures var r := PlanQuiz(users, topics, questions, sessionEmail, input, perm);
      && (!Authenticated(sessionEmail) ==> r == Error(MustBeAuthenticated))
      && (Authenticated(sessionEmail) && FindUserByEmail(users, sessionEmail.value).None? ==> r == Error(UserNotFound))
      && (Authenticated(sessionEmail) && FindUserByEmail(users, sessionEmail.value).Some? ==>
            TopicCheck(topics, input.topicIds).Error? ==> r == Error(TopicCheck(topics, input.topicIds).failure))
      && (Authenticated(sessionEmail) && FindUserByEmail(users, sessionEmail.value).Some?
          && TopicCheck(topics, input.topicIds).Ok? ==>
            var candidates := Candidates(questions, input.topicIds, input.difficulty, input.yearStart,
                                         input.yearEnd, TopicCheck(topics, input.topicIds).value);
            && (candidates == [] ==> r == Error(NoQuestionsAvailable))
            && (candidates != [] ==> r.Ok?))
      && (r.Ok? ==>
            && Authenticated(sessionEmail) && FindUserByEmail(users, sessionEmail.value).Some?
            && TopicCheck(topics, input.topicIds).Ok?
            && var subject := TopicCheck(topics, input.topicIds).value;
               var candidates := Candidates(questions, input.topicIds, input.difficulty, input.yearStart,
                                            input.yearEnd, subject);
               && candidates != []
               && r.value == CreatedQuiz(FindUserByEmail(users, sessionEmail.value).value.id, input, subject,
                                         Selection(candidates, perm, input.numberOfQuestions)))
  {
  }

  lemma MemberFoundById(users: seq<User>, u: User)
    requires u in users
    ensures FindUserById(users, u.id).Some?
  {
    var i :| 0 <= i < |users| && users[i] == u;
    assert users[i].id == u.id;
  }

  /** The rubric update: `rubricType` as given, `customRubric` only for "custom", else null. */
  function WithRubric(q: QuizRecord, rubricType: string, customRubric: NullableArg): QuizRecord {
    q.(rubricType := Some(rubricType),
       customRubric := if rubricType != "custom" then None
                       else match customRubric
                            case Absent => q.customRubric
                            case Null => None
                            case Given(text) => Some(text))
  }

  /**
   * A rubric update stores the type and keeps a custom text only for the
   * "custom" type; an omitted text keeps the stored one; nothing else in
   * the quiz changes.
   */
  lemma RubricStoredOnlyForCustom(q: QuizRecord, rubricType: string, customRubric: NullableArg)
    ensures var u := WithRubric(q, rubricType, customRubric);
      && u.rubricType == Some(rubricType)
      && (u.customRubric.Some? ==> rubricType == "custom")
      && (rubricType == "custom" && customRubric.Given? ==> u.customRubric == Some(customRubric.text))
      && (rubricType == "custom" && customRubric.Absent? ==> u.customRubric == q.customRubric)
      && u.(rubricType := q.rubricType, customRubric := q.customRubric) == q
  {
  }

  // ---------------------------------------------------------------------------
  // The store
  // ---------------------------------------------------------------------------

  /** No two users share an id or an e-mail. */
  predicate UniqueUsers(users: seq<User>) {
    forall i, j :: 0 <= i < j < |users| ==> users[i].id != users[j].id && users[i].email != users[j].email
  }

  /** Every quiz is numbered below the id sequence and owned by a user. */
  predicate QuizzesOwned(users: seq<User>, quizzes: map<nat, QuizRecord>, nextQuizId: nat) {
    forall id :: id in quizzes ==> id < nextQuizId && FindUserById(users, quizzes[id].ownerId).Some?
  }

  /** Every assignment points at a stored quiz. */
  predicate AssignmentsOfQuizzes(assignments: seq<Assignment>, quizzes: map<nat, QuizRecord>) {
    forall i :: 0 <= i < |assignments| ==> assignments[i].quizId in quizzes
  }

  class Store {
    var users: seq<User>
    /** topic id -> subject id */
    var topics: map<nat, nat>
    var questions: seq<Question>
    var quizzes: map<nat, QuizRecord>
    var assignments: seq<Assignment>
    /** The next value of the quiz id sequence. */
    var nextQuizId: nat

    /**
     * Unique user ids and e-mails, unique question rows, every quiz owned by
     * a user and numbered below the id sequence, every assignment pointing
     * at a quiz.
     */
    ghost predicate Valid()
      reads this`users, this`questions, this`quizzes, this`assignments, this`nextQuizId
    {
      && UniqueUsers(users)
      && DistinctQuestions(questions)
      && QuizzesOwned(users, quizzes, nextQuizId)
      && AssignmentsOfQuizzes(assignments, quizzes)
    }

    constructor (users: seq<User>, topics: map<nat, nat>, questions: seq<Question>)
      requires UniqueUsers(users)
      requires DistinctQuestions(questions)
      ensures Valid()
      ensures this.users == users && this.topics == topics && this.questions == questions
      ensures quizzes == map[] && assignments == [] && nextQuizId == 1
    {
      this.users, this.topics, this.questions := users, topics, questions;
      quizzes, assignments, nextQuizId := map[], [], 1;
    }

    /** The signed-in user, if the session names one. */
    function SessionUser(sessionEmail: Option<string>): (r: Option<User>)
      reads this`users
      ensures r.Some? ==> Authenticated(sessionEmail) && r.value in users && r.value.email == sessionEmail.value
    {
      if Authenticated(sessionEmail) then FindUserByEmail(users, sessionEmail.value) else None
    }

    /** `quiz.owner.email === session.user.email`. */
    predicate OwnedBy(quizId: nat, sessionEmail: Option<string>)
      reads this`users, this`quizzes
      requires quizId in quizzes && Authenticated(sessionEmail)
    {
      match FindUserById(users, quizzes[quizId].ownerId)
      case Some(owner) => owner.email == sessionEmail.value
      case None => false
    }

    /**
     * `createQuiz`: runs the checks of `PlanQuiz` in its order; on success
     * the planned quiz is stored under the next id of the sequence, first
     * created and then, if any were selected, connected to its questions.
     * Any failure leaves the store unchanged.
     */
    method CreateQuiz(sessionEmail: Option<string>, input: CreateQuizInput, perm: seq<nat>)
      returns (r: Result<nat>)
      requires Valid()
      modifies this`quizzes, this`nextQuizId
      ensures Valid()
      ensures r.Error? <==> PlanQuiz(users, topics, questions, sessionEmail, input, perm).Error?
      ensures r.Error? ==>
        && r.failure == PlanQuiz(users, topics, questions, sessionEmail, input, perm).failure
        && quizzes == old(quizzes) && nextQuizId == old(nextQuizId)
      ensures r.Ok? ==>
        && r.value == old(nextQuizId) && r.value !in old(quizzes)
        && nextQuizId == old(nextQuizId) + 1
        && quizzes == old(quizzes)[r.value := PlanQuiz(users, topics, questions, sessionEmail, input, perm).value]
    {
      var plan := PlanQuiz(users, topics, questions, sessionEmail, input, perm);
      if plan.Error? {
        return Error(plan.failure);
      }
      var id := StoreQuiz(plan.value);
      r := Ok(id);
    }

    /**
     * The two writes of a successful `createQuiz`: the row is created under
     * the next id without questions, then connected to its questions if it
     * has any.
     */
    method StoreQuiz(q: QuizRecord) returns (id: nat)
      requires Valid() && FindUserById(users, q.ownerId).Some?
      modifies this`quizzes, this`nextQuizId
      ensures Valid()
      ensures id == old(nextQuizId) && id !in old(quizzes) && nextQuizId == old(nextQuizId) + 1
      ensures quizzes == old(quizzes)[id := q]
    {
      id := nextQuizId;
      ghost var before := quizzes;
      quizzes := quizzes[id := q.(questionIds := {})];
      nextQuizId := nextQuizId + 1;
      if q.questionIds != {} {
        quizzes := quizzes[id := q];
      }
      assert quizzes == before[id := q];
    }

    /** Overwrites one stored quiz with a record of the same owner, as an ORM `update` does. */
    method ReplaceQuiz(quizId: nat, q: QuizRecord)
      requires Valid() && quizId in quizzes && q.ownerId == quizzes[quizId].ownerId
      modifies this`quizzes
      ensures Valid() && quizzes == old(quizzes)[quizId := q]
    {
      quizzes := quizzes[quizId := q];
    }

    /** The first assignment with the given link (`findFirst`). */
    function FindAssignment(link: string): (r: Option<nat>)
      reads this`assignments
      ensures r.Some? ==> r.value < |assignments| && assignments[r.value].shareableLink == link
      ensures r.Some? ==> forall k :: 0 <= k < r.value ==> assignments[k].shareableLink != link
      ensures r.None? ==> forall k :: 0 <= k < |assignments| ==> assignments[k].shareableLink != link
    {
      FirstWithLink(assignments, link, 0)
    }

    /**
     * `claimQuizAssignment`: a signed-in student holding a valid link is
     * added to the assignment's users and the quiz becomes ASSIGNED;
     * claiming the same link twice fails.
     */
    method ClaimQuizAssignment(sessionEmail: Option<string>, link: string) returns (r: Result<nat>)
      requires Valid()
      modifies this`quizzes, this`assignments
      ensures Valid()
      ensures !Authenticated(sessionEmail) ==> r == Error(LoginRequired)
      ensures Authenticated(sessionEmail) && SessionUser(sessionEmail).None? ==> r == Error(UserNotFound)
      ensures SessionUser(sessionEmail).Some? && old(FindAssignment(link)).None? ==> r == Error(InvalidLink)
      ensures SessionUser(sessionEmail).Some? && old(FindAssignment(link)).Some? &&
              SessionUser(sessionEmail).value.id in old(assignments[FindAssignment(link).value].users) ==>
              r == Error(AlreadyAssigned)
      ensures r.Error? ==> quizzes == old(quizzes) && assignments == old(assignments)
      ensures r.Ok? ==>
        && SessionUser(sessionEmail).Some? && old(FindAssignment(link)) == Some(r.value)
        && var k := r.value;
           var a := old(assignments[k]);
           var uid := SessionUser(sessionEmail).value.id;
           && uid !in a.users
           && assignments == old(assignments)[k := a.(users := a.users + {uid})]
           && quizzes == old(quizzes)[a.quizId := old(quizzes[a.quizId]).(kind := Assigned)]
    {
      if !Authenticated(sessionEmail) {
        return Error(LoginRequired);
      }
      var user := FindUserByEmail(users, sessionEmail.value);
      if user.None? {
        return Error(UserNotFound);
      }
      var found := FindAssignment(link);
      if found.None? {
        return Error(InvalidLink);
      }
      var k := found.value;
      var a := assignments[k];
      if user.value.id in a.users {
        return Error(AlreadyAssigned);
      }
      ReplaceQuiz(a.quizId, quizzes[a.quizId].(kind := Assigned));
      assignments := assignments[k := a.(users := a.users + {user.value.id})];
      r := Ok(k);
    }

    /** Some assignment of the quiz has been claimed by a student. */
    predicate HasStudents(quizId: nat)
      reads this`assignments
    {
      exists i :: 0 <= i < |assignments| && assignments[i].quizId == quizId && |assignments[i].users| > 0
    }

    /**
     * `deleteQuiz`: only the owner may delete, and only while no student
     * holds an assignment of the quiz; the quiz and all its assignments go.
     */
    method DeleteQuiz(sessionEmail: Option<string>, quizId: nat) returns (r: Result<bool>)
      requires Valid()
      modifies this`quizzes, this`assignments
      ensures Valid()
      ensures !Authenticated(sessionEmail) ==> r == Error(NotAuthenticated)
      ensures Authenticated(sessionEmail) && quizId !in old(quizzes) ==> r == Error(QuizNotFound)
      ensures Authenticated(sessionEmail) && quizId in old(quizzes) && !old(OwnedBy(quizId, sessionEmail)) ==>
        r == Error(OnlyDeleteOwn)
      ensures (Authenticated(sessionEmail) && quizId in old(quizzes) && old(OwnedBy(quizId, sessionEmail)) &&
               old(HasStudents(quizId))) ==> r == Error(AssignedToStudents)
      ensures r.Error? ==> quizzes == old(quizzes) && assignments == old(assignments)
      ensures r.Ok? ==>
        && r.value
        && Authenticated(sessionEmail) && quizId in old(quizzes) && old(OwnedBy(quizId, sessionEmail))
        && !old(HasStudents(quizId))
        && quizzes == old(quizzes) - {quizId}
        && assignments == Filter(old(assignments), (a: Assignment) => a.quizId != quizId)
    {
      if !Authenticated(sessionEmail) {
        return Error(NotAuthenticated);
      }
      if quizId !in quizzes {
        return Error(QuizNotFound);
      }
      if !OwnedBy(quizId, sessionEmail) {
        return Error(OnlyDeleteOwn);
      }
      if HasStudents(quizId) {
        return Error(AssignedToStudents);
      }
      var kept := Filter(assignments, (a: Assignment) => a.quizId != quizId);
      assert forall i :: 0 <= i < |kept| ==> kept[i] in assignments;
      assignments := kept;
      quizzes := quizzes - {quizId};
      r := Ok(true);
    }

    /** The checks shared by the three lifecycle mutations, in their order. */
    function LifecycleCheck(sessionEmail: Option<string>, quizId: nat): (r: Option<Failure>)
      reads this`users, this`quizzes
      ensures r.None? <==> SessionUser(sessionEmail).Some? && quizId in quizzes
    {
      if !Authenticated(sessionEmail) then Some(NotAuthenticated)
      else if FindUserByEmail(users, sessionEmail.value).None? then Some(UserNotFound)
      else if quizId !in quizzes then Some(RecordNotFound)
      else None
    }

    /** `startQuiz`: any signed-in user sets `start_time` to now, also when it was already set. */
    method StartQuiz(sessionEmail: Option<string>, quizId: nat, now: nat) returns (r: Result<QuizRecord>)
      requires Valid()
      modifies this`quizzes
      ensures Valid()
      ensures old(LifecycleCheck(sessionEmail, quizId)).Some? ==>
        r == Error(old(LifecycleCheck(sessionEmail, quizId)).value) && quizzes == old(quizzes)
      ensures old(LifecycleCheck(sessionEmail, quizId)).None? ==>
        && quizzes == old(quizzes)[quizId := old(quizzes[quizId]).(startTime := Some(now))]
        && r == Ok(quizzes[quizId])
    {
      var failure := LifecycleCheck(sessionEmail, quizId);
      if failure.Some? {
        return Error(failure.value);
      }
      ReplaceQuiz(quizId, quizzes[quizId].(startTime := Some(now)));
      r := Ok(quizzes[quizId]);
    }

    /** `finishQuiz`: sets `finished_at` to now and nothing else. */
    method FinishQuiz(sessionEmail: Option<string>, quizId: nat, now: nat) returns (r: Result<QuizRecord>)
      requires Valid()
      modifies this`quizzes
      ensures Valid()
      ensures old(LifecycleCheck(sessionEmail, quizId)).Some? ==>
        r == Error(old(LifecycleCheck(sessionEmail, quizId)).value) && quizzes == old(quizzes)
      ensures old(LifecycleCheck(sessionEmail, quizId)).None? ==>
        && quizzes == old(quizzes)[quizId := old(quizzes[quizId]).(finishedAt := Some(now))]
        && r == Ok(quizzes[quizId])
    {
      var failure := LifecycleCheck(sessionEmail, quizId);
      if failure.Some? {
        return Error(failure.value);
      }
      ReplaceQuiz(quizId, quizzes[quizId].(finishedAt := Some(now)));
      r := Ok(quizzes[quizId]);
    }

    /** `resetQuizFinishedAt`: clears `finished_at` and nothing else. */
    method ResetQuizFinishedAt(sessionEmail: Option<string>, quizId: nat) returns (r: Result<QuizRecord>)
      requires Valid()
      modifies this`quizzes
      ensures Valid()
      ensures old(LifecycleCheck(sessionEmail, quizId)).Some? ==>
        r == Error(old(LifecycleCheck(sessionEmail, quizId)).value) && quizzes == old(quizzes)
      ensures old(LifecycleCheck(sessionEmail, quizId)).None? ==>
        && quizzes == old(quizzes)[quizId := old(quizzes[quizId]).(finishedAt := None)]
        && r == Ok(quizzes[quizId])
    {
      var failure := LifecycleCheck(sessionEmail, quizId);
      if failure.Some? {
        return Error(failure.value);
      }
      ReplaceQuiz(quizId, quizzes[quizId].(finishedAt := None));
      r := Ok(quizzes[quizId]);
    }

    /** The checks of the owner-only mutations: session, quiz, ownership. */
    function OwnerCheck(sessionEmail: Option<string>, quizId: nat, notOwner: Failure): (r: Option<Failure>)
      reads this`users, this`quizzes
      ensures r.None? <==> Authenticated(sessionEmail) && quizId in quizzes && OwnedBy(quizId, sessionEmail)
    {
      if !Authenticated(sessionEmail) then Some(NotAuthenticated)
      else if quizId !in quizzes then Some(QuizNotFound)
      else if !OwnedBy(quizId, sessionEmail) then Some(notOwner)
      else None
    }

    /**
     * `setQuizRubric`: the owner stores the rubric type; the custom text is
     * stored for the "custom" type (left as it was when the argument is
     * omitted) and cleared for any other type.
     */
    method SetQuizRubric(sessionEmail: Option<string>, quizId: nat, rubricType: string, customRubric: NullableArg)
      returns (r: Result<bool>)
      requires Valid()
      modifies this`quizzes
      ensures Valid()
      ensures old(OwnerCheck(sessionEmail, quizId, OnlyRubricOwn)).Some? ==>
        r == Error(old(OwnerCheck(sessionEmail, quizId, OnlyRubricOwn)).value) && quizzes == old(quizzes)
      ensures old(OwnerCheck(sessionEmail, quizId, OnlyRubricOwn)).None? ==>
        && r == Ok(true)
        && quizzes == old(quizzes)[quizId := WithRubric(old(quizzes[quizId]), rubricType, customRubric)]
    {
      var failure := OwnerCheck(sessionEmail, quizId, OnlyRubricOwn);
      if failure.Some? {
        return Error(failure.value);
      }
      ReplaceQuiz(quizId, WithRubric(quizzes[quizId], rubricType, customRubric));
      r := Ok(true);
    }

    /**
     * `updateQuizQuestions`: the owner replaces the question set; the stored
     * count is the length of the id list given. An id naming no question
     * fails the update.
     */
    method UpdateQuizQuestions(sessionEmail: Option<string>, quizId: nat, questionIds: seq<nat>)
      returns (r: Result<QuizRecord>)
      requires Valid()
      modifies this`quizzes
      ensures Valid()
      ensures old(OwnerCheck(sessionEmail, quizId, OnlyUpdateOwn)).Some? ==>
        r == Error(old(OwnerCheck(sessionEmail, quizId, OnlyUpdateOwn)).value) && quizzes == old(quizzes)
      ensures old(OwnerCheck(sessionEmail, quizId, OnlyUpdateOwn)).None? && !AllQuestionsExist(questionIds) ==>
        r == Error(RecordNotFound) && quizzes == old(quizzes)
      ensures old(OwnerCheck(sessionEmail, quizId, OnlyUpdateOwn)).None? && AllQuestionsExist(questionIds) ==>
        && quizzes == old(quizzes)[quizId := old(quizzes[quizId]).(questionIds := (set id | id in questionIds),
                                                                   numberOfQuestions := |questionIds|)]
        && r == Ok(quizzes[quizId])
    {
      var failure := OwnerCheck(sessionEmail, quizId, OnlyUpdateOwn);
      if failure.Some? {
        return Error(failure.value);
      }
      if !AllQuestionsExist(questionIds) {
        return Error(RecordNotFound);
      }
      ReplaceQuiz(quizId, quizzes[quizId].(questionIds := (set id | id in questionIds),
                                            numberOfQuestions := |questionIds|));
      r := Ok(quizzes[quizId]);
    }

    predicate AllQuestionsExist(questionIds: seq<nat>)
      reads this`questions
    {
      forall i :: 0 <= i < |questionIds| ==> exists k :: 0 <= k < |questions| && questions[k].id == questionIds[i]
    }

    /**
     * `deleteQuestionFromQuiz`: the owner disconnects one question; the
     * count drops by one whether or not the question was in the quiz.
     */
    method DeleteQuestionFromQuiz(sessionEmail: Option<string>, quizId: nat, questionId: nat)
      returns (r: Result<QuizRecord>)
      requires Valid()
      modifies this`quizzes
      ensures Valid()
      ensures old(OwnerCheck(sessionEmail, quizId, OnlyUpdateOwn)).Some? ==>
        r == Error(old(OwnerCheck(sessionEmail, quizId, OnlyUpdateOwn)).value) && quizzes == old(quizzes)
      ensures old(OwnerCheck(sessionEmail, quizId, OnlyUpdateOwn)).None? ==>
        && quizzes == old(quizzes)[quizId := old(quizzes[quizId]).(
             questionIds := old(quizzes[quizId].questionIds) - {questionId},
             numberOfQuestions := old(quizzes[quizId].numberOfQuestions) - 1)]
        && r == Ok(quizzes[quizId])
    {
      var failure := OwnerCheck(sessionEmail, quizId, OnlyUpdateOwn);
      if failure.Some? {
        return Error(failure.value);
      }
      var quiz := quizzes[quizId];
      ReplaceQuiz(quizId, quiz.(questionIds := quiz.questionIds - {questionId},
                                numberOfQuestions := quiz.numberOfQuestions - 1));
      r := Ok(quizzes[quizId]);
    }
  }

  function FirstWithLink(assignments: seq<Assignment>, link: string, from: nat): (r: Option<nat>)
    requires from <= |assignments|
    ensures r.Some? ==> from <= r.value < |assignments| && assignments[r.value].shareableLink == link
    ensures r.Some? ==> forall k :: from <= k < r.value ==> assignments[k].shareableLink != link
    ensures r.None? ==> forall k :: from <= k < |assignments| ==> assignments[k].shareableLink != link
    decreases |assignments| - from
  {
    if from == |assignments| then None
    else if assignments[from].shareableLink == link then Some(from)
    else FirstWithLink(assignments, link, from + 1)
  }
}
