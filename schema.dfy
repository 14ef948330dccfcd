/** Record shapes of the five tables as the API exposes them, the request
    shapes of the handlers, and the validators that run on each request
    before a handler sees it. */
module Schema {
  import opened Wrappers

  /** Instants are passed in by the caller; only their order matters here. */
  type Timestamp = int

  datatype QuestionType = VisualIdentification | AuditoryIdentification

  datatype HijaiyyahLetter = HijaiyyahLetter(
    id: int,
    letter: string,
    name: string,
    pronunciation: string,
    audioUrl: Option<string>,
    level: int,
    createdAt: Timestamp)

  datatype GameLevel = GameLevel(
    id: int,
    levelNumber: int,
    name: string,
    description: Option<string>,
    questionsRequired: int,
    lettersIntroduced: seq<int>,
    isUnlocked: bool,
    createdAt: Timestamp)

  datatype GameSession = GameSession(
    id: int,
    playerName: string,
    currentLevel: int,
    currentScore: int,
    livesRemaining: int,
    sessionStart: Timestamp,
    sessionEnd: Option<Timestamp>,
    isActive: bool,
    createdAt: Timestamp)

  datatype Question = Question(
    id: int,
    questionType: QuestionType,
    levelId: int,
    letterId: int,
    correctAnswer: string,
    options: seq<string>,
    difficulty: int,
    createdAt: Timestamp)

  /** A stored answer row; its time column holds whole seconds. */
  datatype GameAnswer = GameAnswer(
    id: int,
    sessionId: int,
    questionId: int,
    selectedAnswer: string,
    isCorrect: bool,
    timeTakenSeconds: int,
    pointsEarned: int,
    answeredAt: Timestamp,
    createdAt: Timestamp)

  /** What the answer handler returns: the stored row, with the time the
      player actually took in place of the stored whole seconds. */
  datatype SubmittedAnswer = SubmittedAnswer(row: GameAnswer, timeTakenSeconds: real)

  /** The failures a handler or a validator reports. */
  datatype Error =
    | ValidationError(message: string)
    | SessionNotFound(sessionId: int)
    | SessionNotActive(sessionId: int)
    | QuestionNotFound(questionId: int)

  /** The wire name of each question type. */
  function QuestionTypeName(t: QuestionType): string {
    match t
    case VisualIdentification => "visual_identification"
    case AuditoryIdentification => "auditory_identification"
  }

  /** The question-type enum: exactly the two wire names are accepted. */
  function ParseQuestionType(s: string): (r: Option<QuestionType>)
    ensures r.Some? <==> s == "visual_identification" || s == "auditory_identification"
    ensures r.Some? ==> QuestionTypeName(r.value) == s
  {
    if s == "visual_identification" then Some(VisualIdentification)
    else if s == "auditory_identification" then Some(AuditoryIdentification)
    else None
  }

  lemma QuestionTypeRoundTrip(t: QuestionType)
    ensures ParseQuestionType(QuestionTypeName(t)) == Some(t)
  {
  }

  // ----- create a session -----

  /** A create request as sent: level and lives may be left out. */
  datatype CreateGameSessionRequest = CreateGameSessionRequest(
    playerName: string,
    currentLevel: Option<int>,
    livesRemaining: Option<int>)

  datatype CreateGameSessionInput = CreateGameSessionInput(
    playerName: string,
    currentLevel: int,
    livesRemaining: int)

  /** Rejects an empty player name; a missing level becomes 1 and missing
      lives become 3. */
  function ParseCreateGameSessionInput(req: CreateGameSessionRequest): (r: Result<CreateGameSessionInput, Error>)
    ensures r.Success? <==> |req.playerName| >= 1
    ensures r.Failure? ==> r.error.ValidationError?
    ensures r.Success? ==> r.value.playerName == req.playerName
    ensures r.Success? ==> r.value.currentLevel == (if req.currentLevel.Some? then req.currentLevel.value else 1)
    ensures r.Success? ==> r.value.livesRemaining == (if req.livesRemaining.Some? then req.livesRemaining.value else 3)
  {
    if |req.playerName| < 1 then Failure(ValidationError("Player name is required"))
    else
      var level := match req.currentLevel case Some(l) => l case None => 1;
      var lives := match req.livesRemaining case Some(l) => l case None => 3;
      Success(CreateGameSessionInput(req.playerName, level, lives))
  }

  // ----- update a session -----

  /** Only `id` is required; every other field is optional, and an absent
      field is distinct from a field supplied as zero or false. */
  datatype UpdateGameSessionInput = UpdateGameSessionInput(
    id: int,
    currentLevel: Option<int>,
    currentScore: Option<int>,
    livesRemaining: Option<int>,
    isActive: Option<bool>)

  // ----- submit an answer -----

  datatype SubmitAnswerInput = SubmitAnswerInput(
    sessionId: int,
    questionId: int,
    selectedAnswer: string,
    timeTakenSeconds: real)

  /** The time taken must be strictly positive. */
  function ValidateSubmitAnswerInput(input: SubmitAnswerInput): (r: Result<SubmitAnswerInput, Error>)
    ensures r.Success? <==> input.timeTakenSeconds > 0.0
    ensures r.Success? ==> r.value == input
    ensures r.Failure? ==> r.error.ValidationError?
  {
    if input.timeTakenSeconds > 0.0 then Success(input)
    else Failure(ValidationError("time_taken_seconds must be positive"))
  }

  // ----- fetch questions -----

  /** A questions request as sent: the type is a wire name and may be left
      out, and so may the limit. */
  datatype GetQuestionsRequest = GetQuestionsRequest(
    levelId: int,
    questionType: Option<string>,
    limit: Option<int>)

  datatype GetQuestionsInput = GetQuestionsInput(
    levelId: int,
    questionType: Option<QuestionType>,
    limit: int)

  /** A supplied type must be one of the two wire names; a missing limit
      becomes 10. */
  function ParseGetQuestionsInput(req: GetQuestionsRequest): (r: Result<GetQuestionsInput, Error>)
    ensures r.Success? <==> (req.questionType.None? || ParseQuestionType(req.questionType.value).Some?)
    ensures r.Failure? ==> r.error.ValidationError?
    ensures r.Success? ==> r.value.levelId == req.levelId
    ensures r.Success? ==> (r.value.questionType.Some? <==> req.questionType.Some?)
    ensures r.Success? && r.value.questionType.Some? ==>
              QuestionTypeName(r.value.questionType.value) == req.questionType.value
    ensures r.Success? ==> r.value.limit == (if req.limit.Some? then req.limit.value else 10)
  {
    var limit := match req.limit case Some(n) => n case None => 10;
    match req.questionType
    case None => Success(GetQuestionsInput(req.levelId, None, limit))
    case Some(name) =>
      match ParseQuestionType(name)
      case None => Failure(ValidationError("invalid question_type"))
      case Some(t) => Success(GetQuestionsInput(req.levelId, Some(t), limit))
  }
}
