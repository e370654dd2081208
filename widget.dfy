/** The session state of the `QuizWidget` component: the question shown, the answers
    given, the user, and the widget properties, with the handlers that change them. */
module Widget {
  import opened Wrappers
  import opened QuizData
  import opened Items
  import opened DataStore
  import Backend
  import Scoring

  /** A quiz version as the platform returns it; a missing field is `None`. */
  datatype QuizVersion = QuizVersion(title: Option<string>, questions: Option<seq<Question>>)

  /** The widget properties the session logic reads. `questions` is `None` while the
      properties object has no `questions` field. */
  datatype Props = Props(quizTitle: string, questions: Option<seq<Question>>, quizVersion: Option<string>)

  /** The initial properties: a default title and no questions. */
  const DefaultProps := Props("Discover Your Type!", None, None)

  /** JavaScript truthiness of a string that may be missing. */
  predicate TruthyText(s: Option<string>)
  {
    s.Some? && s.value != ""
  }

  /** The merge `quiz.title || prev.quizTitle`, `quiz.questions || prev.questions`: a
      missing or empty title falls back to the previous one; any questions array,
      even an empty one, replaces the previous questions. */
  function MergeQuizVersion(prev: Props, quiz: QuizVersion): (r: Props)
    ensures TruthyText(quiz.title) ==> r.quizTitle == quiz.title.value
    ensures !TruthyText(quiz.title) ==> r.quizTitle == prev.quizTitle
    ensures quiz.questions.Some? ==> r.questions == quiz.questions
    ensures quiz.questions.None? ==> r.questions == prev.questions
    ensures r.quizVersion == prev.quizVersion
  {
    prev.(quizTitle := if TruthyText(quiz.title) then quiz.title.value else prev.quizTitle,
          questions := if quiz.questions.Some? then quiz.questions else prev.questions)
  }

  /** Applying the same quiz version again changes nothing. */
  lemma MergeIdempotent(prev: Props, quiz: QuizVersion)
    ensures MergeQuizVersion(MergeQuizVersion(prev, quiz), quiz) == MergeQuizVersion(prev, quiz)
  {
  }

  /** `{ ...answers, [questionId]: answer }`. */
  function WithAnswer(answers: map<string, QuizOption>, questionId: string, answer: QuizOption)
    : (r: map<string, QuizOption>)
    ensures r.Keys == answers.Keys + {questionId}
    ensures r[questionId] == answer
    ensures forall k :: k in answers && k != questionId ==> r[k] == answers[k]
  {
    answers[questionId := answer]
  }

  /** Answering a question again replaces the earlier answer; answers to different
      questions do not interfere. */
  lemma WithAnswerLastWins(answers: map<string, QuizOption>, questionId: string, first: QuizOption,
                           second: QuizOption, otherId: string, other: QuizOption)
    ensures WithAnswer(WithAnswer(answers, questionId, first), questionId, second)
            == WithAnswer(answers, questionId, second)
    ensures otherId != questionId ==>
            WithAnswer(WithAnswer(answers, questionId, first), otherId, other)
            == WithAnswer(WithAnswer(answers, otherId, other), questionId, first)
  {
  }

  datatype Direction = Previous | Next

  /** The question screen, with its navigation buttons, is rendered. */
  predicate OnQuestion(i: int, n: nat)
  {
    0 <= i < n
  }

  /** A click on Previous or Next. The buttons exist only on the question screen;
      Previous is disabled at the first question and Next at the last. */
  function Navigate(i: int, n: nat, dir: Direction): (j: int)
    ensures OnQuestion(i, n) ==> OnQuestion(j, n)
    ensures !OnQuestion(i, n) ==> j == i
    ensures dir == Previous ==> j <= i && (OnQuestion(i, n) && i > 0 ==> j == i - 1)
    ensures dir == Next ==> j >= i && (OnQuestion(i, n) && i < n - 1 ==> j == i + 1)
  {
    if !OnQuestion(i, n) then i
    else match dir
      case Previous => if i == 0 then i else i - 1
      case Next => if i == n - 1 then i else i + 1
  }

  /** Next undoes Previous and Previous undoes Next, away from the ends. */
  lemma NavigateInverse(i: int, n: nat)
    ensures 0 < i < n ==> Navigate(Navigate(i, n, Previous), n, Next) == i
    ensures 0 <= i < n - 1 ==> Navigate(Navigate(i, n, Next), n, Previous) == i
  {
  }

  /** The index after a sequence of clicks. */
  function Walk(i: int, n: nat, clicks: seq<Direction>): int
    decreases |clicks|
  {
    if |clicks| == 0 then i else Walk(Navigate(i, n, clicks[0]), n, clicks[1..])
  }

  /** From any question, every sequence of clicks stays within the questions: Next
      never leads past the last question to the completion screen. */
  lemma {:induction false} WalkStaysOnQuestion(i: int, n: nat, clicks: seq<Direction>)
    requires OnQuestion(i, n)
    ensures OnQuestion(Walk(i, n, clicks), n)
    decreases |clicks|
  {
    if |clicks| > 0 {
      WalkStaysOnQuestion(Navigate(i, n, clicks[0]), n, clicks[1..]);
    }
  }

  /** The part of the session that progress saves and restores. */
  datatype SessionView = SessionView(currentQuestion: int, answers: map<string, QuizOption>)

  /** Restoring from what `getQuizProgress` resolved to: a progress object replaces
      the index and the answers; `null` keeps the session as it is. */
  function Restored(v: SessionView, saved: Value): (r: SessionView)
    requires saved.Null? || saved.ProgressData?
    ensures saved.Null? ==> r == v
    ensures saved.ProgressData? ==> r.currentQuestion == saved.p.currentQuestion && r.answers == saved.p.answers
  {
    match saved
    case ProgressData(p) => SessionView(p.currentQuestion, p.answers)
    case Null => v
  }

  /** Saving a session's progress and then restoring from the collection, from any
      starting session, gives back the saved index and answers. */
  lemma RestoreAfterSave(ds: seq<Document>, u: Value, q: Value, saved: SessionView, now: int, newId: nat,
                         start: SessionView)
    ensures var after := Backend.Upsert(ds, u, q, ProgressData(QuizData.Progress(saved.currentQuestion, saved.answers)), now, newId);
            && (Backend.Lookup(after, u, q).Null? || Backend.Lookup(after, u, q).ProgressData?)
            && Restored(start, Backend.Lookup(after, u, q)) == saved
  {
    Backend.LookupAfterUpsert(ds, u, q, ProgressData(QuizData.Progress(saved.currentQuestion, saved.answers)), now, newId);
  }

  /** The number of questions navigation sees; without a questions array the
      question screen cannot render. */
  function QuestionCount(props: Props): nat
  {
    if props.questions.Some? then |props.questions.value| else 0
  }

  /** The questions the scoring reads; without a questions array every answered
      position fails as a missing question would. */
  function QuestionList(props: Props): seq<Question>
  {
    if props.questions.Some? then props.questions.value else []
  }

  class QuizWidget {
    const quizId: string
    var currentQuestion: int
    var answers: map<string, QuizOption>
    var isLoading: bool
    var userId: Option<string>
    var props: Props
    var result: Option<Label>

    /** The initial `useState` values. */
    constructor (quizId: string)
      ensures this.quizId == quizId && currentQuestion == 0 && answers == map[]
      ensures isLoading && userId.None? && props == DefaultProps && result.None?
    {
      this.quizId := quizId;
      currentQuestion, answers := 0, map[];
      isLoading, userId := true, None;
      props, result := DefaultProps, None;
    }

    function Snapshot(): SessionView
      reads this
    {
      SessionView(currentQuestion, answers)
    }

    /** The first effect: look the user up, read their saved progress and restore it.
        `login` is the logged-in user's identifier, `None` when that lookup rejects;
        `reachable` says whether the progress read succeeds. Every path ends the
        loading state. */
    method Load(login: Option<string>, db: Database, reachable: bool)
      requires Backend.ProgressShaped(db.progress)
      modifies this`currentQuestion, this`answers, this`isLoading, this`userId
      ensures !isLoading
      ensures login.None? ==> userId == old(userId) && Snapshot() == old(Snapshot())
      ensures login.Some? ==> userId == login
      ensures login.Some? && !reachable ==> Snapshot() == old(Snapshot())
      ensures login.Some? && reachable ==>
              var saved := Backend.Lookup(db.progress, UserValue(login), Text(quizId));
              (saved.Null? || saved.ProgressData?) && Snapshot() == Restored(old(Snapshot()), saved)
    {
      if login.None? {
        isLoading := false;
        return;
      }
      userId := login;
      var savedProgress := Backend.GetQuizProgress(db, userId, quizId, reachable);
      if savedProgress.Success? {
        Backend.LookupShaped(db.progress, UserValue(userId), Text(quizId));
        var restored := Restored(Snapshot(), savedProgress.value);
        answers, currentQuestion := restored.answers, restored.currentQuestion;
      }
      isLoading := false;
    }

    /** The second effect: take the widget properties, then merge in the quiz version
        they name. `fetched` is what `getQuizVersion` resolved to, `None` when it
        rejected or resolved to a falsy value. */
    method LoadProps(propsData: Props, fetched: Option<QuizVersion>)
      modifies this`props
      ensures props == if TruthyText(propsData.quizVersion) && fetched.Some?
                       then MergeQuizVersion(propsData, fetched.value) else propsData
    {
      props := propsData;
      if TruthyText(propsData.quizVersion) && fetched.Some? {
        props := MergeQuizVersion(props, fetched.value);
      }
    }

    /** `handleAnswer(questionId, answer)`: record the answer locally, then save the
        unchanged index with the new answers. A rejected save is only logged: the
        local answers keep the new answer. */
    method HandleAnswer(questionId: string, answer: QuizOption, db: Database, now: int, reachable: bool)
      requires db.Valid()
      modifies this`answers, db
      ensures db.Valid() && db.results == old(db.results)
      ensures answers == WithAnswer(old(answers), questionId, answer)
      ensures reachable ==>
              db.progress == Backend.Upsert(old(db.progress), UserValue(userId), Text(quizId),
                                            ProgressData(QuizData.Progress(currentQuestion, answers)), now, old(db.nextId))
      ensures reachable ==>
              Backend.Lookup(db.progress, UserValue(userId), Text(quizId)) == ProgressData(QuizData.Progress(currentQuestion, answers))
      ensures !reachable ==> db.progress == old(db.progress)
      ensures Backend.ProgressShaped(old(db.progress)) ==> Backend.ProgressShaped(db.progress)
    {
      var newAnswers := WithAnswer(answers, questionId, answer);
      answers := newAnswers;
      var payload := ProgressData(QuizData.Progress(currentQuestion, newAnswers));
      var saved := Backend.SaveQuizProgress(db, userId, quizId, payload, now, reachable);
      if reachable {
        Backend.LookupAfterUpsert(old(db.progress), UserValue(userId), Text(quizId), payload, now, old(db.nextId));
      }
    }

    /** `handleSubmit()`: submit the answers with the completion time. Nothing guards
        against a second submission; a rejected submission is only logged. */
    method HandleSubmit(db: Database, now: int, reachable: bool)
      requires db.Valid()
      modifies db
      ensures db.Valid() && db.progress == old(db.progress)
      ensures reachable ==>
              db.results == old(db.results)
                            + [Backend.NewResultsItem(UserValue(userId), Text(quizId),
                                                      ResultsData(QuizData.Results(answers, now)), now, old(db.nextId))]
      ensures !reachable ==> db.results == old(db.results)
    {
      var submitted := Backend.SubmitQuizResults(db, userId, quizId, ResultsData(QuizData.Results(answers, now)), now, reachable);
    }

    /** `calculateResult(answersArr)`: score against the current questions and, when
        the scoring does not throw, store the dominant label as the result. */
    method CalculateResult(answersArr: seq<Option<nat>>) returns (r: Result<Label, Scoring.ScoreError>)
      modifies this`result
      ensures r.Success? <==> Scoring.Scorable(answersArr, QuestionList(props))
      ensures r.Success? ==> r.value == Scoring.Dominant(Scoring.TallyOf(answersArr, QuestionList(props)))
                             && result == Some(r.value)
      ensures r.Failure? ==> Scoring.FirstFault(answersArr, QuestionList(props), r.error) && result == old(result)
    {
      r := Scoring.CalculateResult(answersArr, QuestionList(props));
      if r.Success? {
        result := Some(r.value);
      }
    }

    /** A click on Previous (when the question screen is rendered). */
    method GoPrevious()
      modifies this`currentQuestion
      ensures currentQuestion == if isLoading then old(currentQuestion)
                                 else Navigate(old(currentQuestion), QuestionCount(props), Previous)
    {
      if !isLoading {
        currentQuestion := Navigate(currentQuestion, QuestionCount(props), Previous);
      }
    }

    /** A click on Next (when the question screen is rendered). */
    method GoNext()
      modifies this`currentQuestion
      ensures currentQuestion == if isLoading then old(currentQuestion)
                                 else Navigate(old(currentQuestion), QuestionCount(props), Next)
    {
      if !isLoading {
        currentQuestion := Navigate(currentQuestion, QuestionCount(props), Next);
      }
    }
  }

  /** A user answers one question and reloads the widget: the new session restores the
      index and answers the first one saved. */
  method ReloadRestoresSession(db: Database, quizId: string, user: string, questionId: string,
                               answer: QuizOption, now: int)
    returns (before: SessionView, after: SessionView)
    requires db.Valid() && Backend.ProgressShaped(db.progress)
    modifies db
    ensures after == before
    ensures questionId in after.answers && after.answers[questionId] == answer
  {
    var first := new QuizWidget(quizId);
    first.Load(Some(user), db, true);
    first.HandleAnswer(questionId, answer, db, now, true);
    before := first.Snapshot();
    var second := new QuizWidget(quizId);
    second.Load(Some(user), db, true);
    after := second.Snapshot();
  }
}
