/** The table definitions' column defaults: what a row looks like after an
    insert that leaves some columns out. Every table's `id` is serial, so
    the caller hands in the next id; `defaultNow()` columns take `now`. */
module DbSchema {
  import opened Wrappers
  import opened Schema

  datatype NewHijaiyyahLetter = NewHijaiyyahLetter(
    letter: string,
    name: string,
    pronunciation: string,
    audioUrl: Option<string>,
    level: int)

  datatype NewGameLevel = NewGameLevel(
    levelNumber: int,
    name: string,
    description: Option<string>,
    questionsRequired: int,
    lettersIntroduced: seq<int>,
    isUnlocked: Option<bool>)

  datatype NewGameSession = NewGameSession(
    playerName: string,
    currentLevel: Option<int>,
    currentScore: Option<int>,
    livesRemaining: Option<int>,
    sessionEnd: Option<Timestamp>,
    isActive: Option<bool>)

  datatype NewQuestion = NewQuestion(
    questionType: QuestionType,
    levelId: int,
    letterId: int,
    correctAnswer: string,
    options: seq<string>,
    difficulty: Option<int>)

  datatype NewGameAnswer = NewGameAnswer(
    sessionId: int,
    questionId: int,
    selectedAnswer: string,
    isCorrect: bool,
    timeTakenSeconds: int,
    pointsEarned: Option<int>)

  function OrElse<T>(o: Option<T>, default: T): (r: T)
    ensures o.Some? ==> r == o.value
    ensures o.None? ==> r == default
  {
    match o
    case Some(v) => v
    case None => default
  }

  function LetterRow(id: int, ins: NewHijaiyyahLetter, now: Timestamp): (r: HijaiyyahLetter)
    ensures r.id == id && r.level == ins.level && r.createdAt == now
    ensures r.letter == ins.letter && r.name == ins.name && r.pronunciation == ins.pronunciation
    ensures r.audioUrl == ins.audioUrl
  {
    HijaiyyahLetter(id, ins.letter, ins.name, ins.pronunciation, ins.audioUrl, ins.level, now)
  }

  /** `is_unlocked` defaults to false. */
  function LevelRow(id: int, ins: NewGameLevel, now: Timestamp): (r: GameLevel)
    ensures r.id == id && r.levelNumber == ins.levelNumber && r.name == ins.name && r.createdAt == now
    ensures r.questionsRequired == ins.questionsRequired
    ensures r.lettersIntroduced == ins.lettersIntroduced && r.description == ins.description
    ensures ins.isUnlocked.None? ==> !r.isUnlocked
    ensures ins.isUnlocked.Some? ==> r.isUnlocked == ins.isUnlocked.value
  {
    GameLevel(id, ins.levelNumber, ins.name, ins.description, ins.questionsRequired,
              ins.lettersIntroduced, OrElse(ins.isUnlocked, false), now)
  }

  /** Level 1, score 0, lives 3 and active unless supplied; `session_end`
      is null unless supplied; both stamps are `now`. */
  function SessionRow(id: int, ins: NewGameSession, now: Timestamp): (r: GameSession)
    ensures r.id == id && r.playerName == ins.playerName
    ensures r.sessionStart == now && r.createdAt == now
    ensures r.currentLevel == (if ins.currentLevel.Some? then ins.currentLevel.value else 1)
    ensures r.currentScore == (if ins.currentScore.Some? then ins.currentScore.value else 0)
    ensures r.livesRemaining == (if ins.livesRemaining.Some? then ins.livesRemaining.value else 3)
    ensures r.isActive == (if ins.isActive.Some? then ins.isActive.value else true)
    ensures r.sessionEnd == ins.sessionEnd
  {
    GameSession(id, ins.playerName, OrElse(ins.currentLevel, 1), OrElse(ins.currentScore, 0),
                OrElse(ins.livesRemaining, 3), now, ins.sessionEnd, OrElse(ins.isActive, true), now)
  }

  /** `difficulty` defaults to 1. */
  function QuestionRow(id: int, ins: NewQuestion, now: Timestamp): (r: Question)
    ensures r.id == id && r.questionType == ins.questionType && r.levelId == ins.levelId
    ensures r.letterId == ins.letterId && r.correctAnswer == ins.correctAnswer && r.options == ins.options
    ensures r.createdAt == now
    ensures r.difficulty == (if ins.difficulty.Some? then ins.difficulty.value else 1)
  {
    Question(id, ins.questionType, ins.levelId, ins.letterId, ins.correctAnswer, ins.options,
             OrElse(ins.difficulty, 1), now)
  }

  /** `points_earned` defaults to 0; the time column is whole seconds. */
  function AnswerRow(id: int, ins: NewGameAnswer, now: Timestamp): (r: GameAnswer)
    ensures r.id == id && r.sessionId == ins.sessionId && r.questionId == ins.questionId
    ensures r.selectedAnswer == ins.selectedAnswer && r.isCorrect == ins.isCorrect
    ensures r.timeTakenSeconds == ins.timeTakenSeconds
    ensures r.pointsEarned == (if ins.pointsEarned.Some? then ins.pointsEarned.value else 0)
    ensures r.answeredAt == now && r.createdAt == now
  {
    GameAnswer(id, ins.sessionId, ins.questionId, ins.selectedAnswer, ins.isCorrect,
               ins.timeTakenSeconds, OrElse(ins.pointsEarned, 0), now, now)
  }

  /** A session inserted with nothing but a player name starts at level 1
      with score 0, three lives, active and not ended. */
  lemma NameOnlySessionDefaults(id: int, name: string, now: Timestamp)
    ensures var r := SessionRow(id, NewGameSession(name, None, None, None, None, None), now);
            r.currentLevel == 1 && r.currentScore == 0 && r.livesRemaining == 3
            && r.isActive && r.sessionEnd.None?
  {
  }
}
