/** The five tables as one in-memory store, and the three handlers that
    write to it: `createGameSession`, `updateGameSession` and
    `submitAnswer`. Requests run one at a time. */
module Store {
  import opened Wrappers
  import opened Schema
  import opened Tables
  import opened DbSchema
  import opened Scoring
  import opened Sessions

  function QuestionIndex(questions: seq<Question>, id: int): (r: Option<nat>)
    ensures r.None? <==> forall i :: 0 <= i < |questions| ==> questions[i].id != id
    ensures r.Some? ==> r.value < |questions| && questions[r.value].id == id
  {
    IndexWhere(questions, (q: Question) => q.id == id)
  }

  /** Sum of the points of a session's rows in the answer log. */
  function SessionPoints(answers: seq<GameAnswer>, sessionId: int): int {
    if answers == [] then 0
    else SessionPoints(answers[..|answers| - 1], sessionId)
         + (if answers[|answers| - 1].sessionId == sessionId then answers[|answers| - 1].pointsEarned else 0)
  }

  /** Appending a row adds its points to its own session's sum only. */
  lemma SessionPointsAppend(answers: seq<GameAnswer>, a: GameAnswer, sessionId: int)
    ensures SessionPoints(answers + [a], sessionId)
            == SessionPoints(answers, sessionId) + (if a.sessionId == sessionId then a.pointsEarned else 0)
  {
    assert (answers + [a])[..|answers|] == answers;
  }

  function SessionId(s: GameSession): int { s.id }
  function AnswerId(a: GameAnswer): int { a.id }

  /** Serial-id bookkeeping: every id is below the next one and no two are equal. */
  ghost predicate SerialIds<T>(rows: seq<T>, id: T -> int, next: int) {
    && 1 <= next
    && (forall i :: 0 <= i < |rows| ==> 1 <= id(rows[i]) < next)
    && DistinctIds(rows, id)
  }

  /** Inserting a row with the next id and advancing the counter keeps the
      ids serial. */
  lemma InsertKeepsSerialIds<T>(rows: seq<T>, id: T -> int, next: int, row: T)
    requires SerialIds(rows, id, next) && id(row) == next
    ensures SerialIds(rows + [row], id, next + 1)
  {
  }

  /** Rewriting a row without touching its id keeps the ids serial. */
  lemma RewriteKeepsSerialIds<T>(rows: seq<T>, id: T -> int, next: int, k: nat, row: T)
    requires SerialIds(rows, id, next) && k < |rows| && id(row) == id(rows[k])
    ensures SerialIds(rows[k := row], id, next)
  {
  }

  /** A session's score minus the points logged for it, for every session. */
  function ScoreOffsets(sessions: seq<GameSession>, answers: seq<GameAnswer>): (r: seq<int>)
    ensures |r| == |sessions|
    ensures forall i :: 0 <= i < |r| ==> r[i] == sessions[i].currentScore - SessionPoints(answers, sessions[i].id)
  {
    seq(|sessions|, i requires 0 <= i < |sessions| => sessions[i].currentScore - SessionPoints(answers, sessions[i].id))
  }

  /** Logging an answer for session `k` and adding its points to that
      session's score alone leaves every session's offset unchanged. */
  lemma ScoreAndLogMoveTogether(sessions: seq<GameSession>, answers: seq<GameAnswer>, k: nat, row: GameAnswer)
    requires k < |sessions| && row.sessionId == sessions[k].id
    requires DistinctIds(sessions, SessionId)
    ensures var scored := sessions[k := sessions[k].(currentScore := sessions[k].currentScore + row.pointsEarned)];
            ScoreOffsets(scored, answers + [row]) == ScoreOffsets(sessions, answers)
  {
    var scored := sessions[k := sessions[k].(currentScore := sessions[k].currentScore + row.pointsEarned)];
    forall i | 0 <= i < |sessions|
      ensures ScoreOffsets(scored, answers + [row])[i] == ScoreOffsets(sessions, answers)[i]
    {
      SessionPointsAppend(answers, row, sessions[i].id);
      if i < k {
        assert sessions[i].id != sessions[k].id;
      } else if i > k {
        assert sessions[k].id != sessions[i].id;
      }
    }
  }

  /** The checks `submitAnswer` makes before writing, in order: the
      session exists, it is active, the question exists. On success, the
      session's position and the question. */
  function ValidateSubmission(sessions: seq<GameSession>, questions: seq<Question>,
                              input: SubmitAnswerInput): (r: Result<(nat, Question), Error>)
    ensures SessionIndex(sessions, input.sessionId).None? ==>
              r == Failure(SessionNotFound(input.sessionId))
    ensures SessionIndex(sessions, input.sessionId).Some?
            && !sessions[SessionIndex(sessions, input.sessionId).value].isActive ==>
              r == Failure(SessionNotActive(input.sessionId))
    ensures SessionIndex(sessions, input.sessionId).Some?
            && sessions[SessionIndex(sessions, input.sessionId).value].isActive
            && QuestionIndex(questions, input.questionId).None? ==>
              r == Failure(QuestionNotFound(input.questionId))
    ensures r.Success? ==>
              && r.value.0 < |sessions| && sessions[r.value.0].id == input.sessionId
              && sessions[r.value.0].isActive
              && r.value.1 in questions && r.value.1.id == input.questionId
  {
    match SessionIndex(sessions, input.sessionId)
    case None => Failure(SessionNotFound(input.sessionId))
    case Some(k) =>
      if !sessions[k].isActive then Failure(SessionNotActive(input.sessionId))
      else match QuestionIndex(questions, input.questionId)
        case None => Failure(QuestionNotFound(input.questionId))
        case Some(j) => Success((k, questions[j]))
  }

  class GameStore {
    var letters: seq<HijaiyyahLetter>
    var levels: seq<GameLevel>
    var questions: seq<Question>
    var sessions: seq<GameSession>
    var answers: seq<GameAnswer>
    /** The next values of the two serial id columns that handlers insert into. */
    var nextSessionId: int
    var nextAnswerId: int

    /** Serial ids: every stored id was handed out before, so the next one
        is fresh. */
    ghost predicate Valid()
      reads this
    {
      && SerialIds(sessions, SessionId, nextSessionId)
      && SerialIds(answers, AnswerId, nextAnswerId)
    }

    /** A store holding the given content and no sessions or answers. */
    constructor (letters: seq<HijaiyyahLetter>, levels: seq<GameLevel>, questions: seq<Question>)
      ensures Valid()
      ensures this.letters == letters && this.levels == levels && this.questions == questions
      ensures sessions == [] && answers == []
    {
      this.letters := letters;
      this.levels := levels;
      this.questions := questions;
      sessions := [];
      answers := [];
      nextSessionId := 1;
      nextAnswerId := 1;
    }

    /** `createGameSession`: appends one session with the caller's name,
        level and lives, score 0, active, not ended, and a fresh id. */
    method CreateGameSession(input: CreateGameSessionInput, now: Timestamp) returns (s: GameSession)
      requires Valid()
      modifies this
      ensures Valid()
      ensures s.id == old(nextSessionId)
      ensures forall i :: 0 <= i < |old(sessions)| ==> old(sessions)[i].id != s.id
      ensures s.playerName == input.playerName
      ensures s.currentLevel == input.currentLevel && s.livesRemaining == input.livesRemaining
      ensures s.currentScore == 0 && s.isActive && s.sessionEnd.None?
      ensures s.sessionStart == now && s.createdAt == now
      ensures sessions == old(sessions) + [s]
      ensures answers == old(answers) && nextAnswerId == old(nextAnswerId)
      ensures letters == old(letters) && levels == old(levels) && questions == old(questions)
    {
      var row := NewGameSession(input.playerName, Some(input.currentLevel), Some(0),
                                Some(input.livesRemaining), None, Some(true));
      s := SessionRow(nextSessionId, row, now);
      InsertKeepsSerialIds(sessions, SessionId, nextSessionId, s);
      sessions := sessions + [s];
      nextSessionId := nextSessionId + 1;
    }

    /** `updateGameSession`: fails when no session has the id; otherwise
        writes the supplied fields into that row (and `now` into
        `session_end` when deactivating) and returns the row written. */
    method UpdateGameSession(input: UpdateGameSessionInput, now: Timestamp) returns (r: Result<GameSession, Error>)
      requires Valid()
      modifies this
      ensures Valid()
      ensures r.Failure? <==> SessionIndex(old(sessions), input.id).None?
      ensures r.Failure? ==> r.error == SessionNotFound(input.id) && sessions == old(sessions)
      ensures r.Success? ==>
        var k := SessionIndex(old(sessions), input.id).value;
        && r.value == ApplyUpdate(old(sessions)[k], input, now)
        && sessions == old(sessions)[k := r.value]
      ensures answers == old(answers) && nextSessionId == old(nextSessionId) && nextAnswerId == old(nextAnswerId)
      ensures letters == old(letters) && levels == old(levels) && questions == old(questions)
    {
      var found := SessionIndex(sessions, input.id);
      if found.None? {
        return Failure(SessionNotFound(input.id));
      }
      var k := found.value;
      var row := sessions[k];
      if input.currentLevel.Some? {
        row := row.(currentLevel := input.currentLevel.value);
      }
      if input.currentScore.Some? {
        row := row.(currentScore := input.currentScore.value);
      }
      if input.livesRemaining.Some? {
        row := row.(livesRemaining := input.livesRemaining.value);
      }
      if input.isActive.Some? {
        row := row.(isActive := input.isActive.value);
        if !input.isActive.value {
          row := row.(sessionEnd := Some(now));
        }
      }
      RewriteKeepsSerialIds(sessions, SessionId, nextSessionId, k, row);
      sessions := sessions[k := row];
      r := Success(row);
    }

    /** `submitAnswer`: checks the request (see `ValidateSubmission`) and
        fails with no change when it is refused; otherwise appends one answer
        row (time floored to whole seconds) and adds its points to that
        session's score alone. The result carries the time as given. */
    method SubmitAnswer(input: SubmitAnswerInput, now: Timestamp) returns (r: Result<SubmittedAnswer, Error>)
      requires Valid()
      requires input.timeTakenSeconds > 0.0
      modifies this
      ensures Valid()
      ensures var check := ValidateSubmission(old(sessions), questions, input);
        && (r.Failure? <==> check.Failure?)
        && (r.Failure? ==> r.error == check.error
                           && sessions == old(sessions) && answers == old(answers)
                           && nextAnswerId == old(nextAnswerId))
        && (r.Success? ==>
              var k := check.value.0;
              var isCorrect := input.selectedAnswer == check.value.1.correctAnswer;
              var points := Points(isCorrect, input.timeTakenSeconds);
              && r.value.row == GameAnswer(old(nextAnswerId), input.sessionId, input.questionId,
                                           input.selectedAnswer, isCorrect, input.timeTakenSeconds.Floor,
                                           points, now, now)
              && r.value.timeTakenSeconds == input.timeTakenSeconds
              && answers == old(answers) + [r.value.row]
              && sessions == old(sessions)[k := old(sessions)[k].(currentScore := old(sessions)[k].currentScore + points)])
      ensures ScoreOffsets(sessions, answers) == ScoreOffsets(old(sessions), old(answers))
      ensures nextSessionId == old(nextSessionId)
      ensures letters == old(letters) && levels == old(levels) && questions == old(questions)
    {
      var check := ValidateSubmission(sessions, questions, input);
      if check.Failure? {
        return Failure(check.error);
      }
      var (k, question) := check.value;
      var isCorrect := input.selectedAnswer == question.correctAnswer;
      var pointsEarned := 0;
      if isCorrect {
        pointsEarned := BasePoints + SpeedBonus(input.timeTakenSeconds);
      } else {
        pointsEarned := WrongPenalty;
      }
      assert pointsEarned == Points(isCorrect, input.timeTakenSeconds);

      var row := RecordAnswer(k, NewGameAnswer(input.sessionId, input.questionId, input.selectedAnswer,
                                               isCorrect, input.timeTakenSeconds.Floor, Some(pointsEarned)),
                              now);
      r := Success(SubmittedAnswer(row, input.timeTakenSeconds));
    }

    /** The two writes of an accepted answer: the answer-log insert, then
        the score of session `k` moves by the row's points. Every session's
        score stays its logged points plus the same offset. */
    method RecordAnswer(k: nat, ins: NewGameAnswer, now: Timestamp) returns (row: GameAnswer)
      requires Valid()
      requires k < |sessions| && ins.sessionId == sessions[k].id
      modifies this
      ensures Valid()
      ensures row == AnswerRow(old(nextAnswerId), ins, now)
      ensures answers == old(answers) + [row]
      ensures sessions == old(sessions)[k := old(sessions)[k].(currentScore := old(sessions)[k].currentScore + row.pointsEarned)]
      ensures ScoreOffsets(sessions, answers) == ScoreOffsets(old(sessions), old(answers))
      ensures nextSessionId == old(nextSessionId)
      ensures letters == old(letters) && levels == old(levels) && questions == old(questions)
    {
      ghost var sessions0, answers0 := sessions, answers;
      row := InsertAnswer(ins, now);
      SetScore(k, sessions[k].currentScore + row.pointsEarned);
      ScoreAndLogMoveTogether(sessions0, answers0, k, row);
    }

    /** The answer-log insert: one row with the next serial id. */
    method InsertAnswer(ins: NewGameAnswer, now: Timestamp) returns (row: GameAnswer)
      requires Valid()
      modifies this
      ensures Valid()
      ensures row == AnswerRow(old(nextAnswerId), ins, now)
      ensures answers == old(answers) + [row]
      ensures sessions == old(sessions) && nextSessionId == old(nextSessionId)
      ensures letters == old(letters) && levels == old(levels) && questions == old(questions)
    {
      row := AnswerRow(nextAnswerId, ins, now);
      InsertKeepsSerialIds(answers, AnswerId, nextAnswerId, row);
      answers := answers + [row];
      nextAnswerId := nextAnswerId + 1;
    }

    /** The score write: session `k`'s `current_score` becomes `score`. */
    method SetScore(k: nat, score: int)
      requires Valid() && k < |sessions|
      modifies this
      ensures Valid()
      ensures sessions == old(sessions)[k := old(sessions)[k].(currentScore := score)]
      ensures answers == old(answers) && nextSessionId == old(nextSessionId) && nextAnswerId == old(nextAnswerId)
      ensures letters == old(letters) && levels == old(levels) && questions == old(questions)
    {
      var scored := sessions[k].(currentScore := score);
      RewriteKeepsSerialIds(sessions, SessionId, nextSessionId, k, scored);
      sessions := sessions[k := scored];
    }
  }

  /** A fresh session answered correctly in 1.5 s earns 15 points. */
  method CorrectAnswerScenario(q: Question, now: Timestamp)
  {
    var store := new GameStore([], [], [q]);
    var s := store.CreateGameSession(CreateGameSessionInput("Player", 1, 3), now);
    var fast := SubmitAnswerInput(s.id, q.id, q.correctAnswer, 1.5);
    assert ValidateSubmission(store.sessions, store.questions, fast) == Success((0, q));
    var result := store.SubmitAnswer(fast, now);
    FastAnswerFullBonus(1.5);
    assert result.Success? && result.value.row.pointsEarned == 15;
    assert result.value.row.timeTakenSeconds == 1 && result.value.timeTakenSeconds == 1.5;
    assert store.sessions[0].currentScore == 15;
  }

  /** A wrong answer costs 2 points. */
  method WrongAnswerScenario(q: Question, now: Timestamp)
  {
    var store := new GameStore([], [], [q]);
    var s := store.CreateGameSession(CreateGameSessionInput("Player", 1, 3), now);
    var wrong := SubmitAnswerInput(s.id, q.id, q.correctAnswer + "x", 2.0);
    assert |wrong.selectedAnswer| != |q.correctAnswer|;
    assert ValidateSubmission(store.sessions, store.questions, wrong) == Success((0, q));
    var result := store.SubmitAnswer(wrong, now);
    assert result.Success? && result.value.row.pointsEarned == -2;
    assert store.sessions == [s.(currentScore := -2)];
  }

  /** An answer for an unknown session is refused and nothing is written. */
  method UnknownSessionScenario(q: Question, now: Timestamp)
  {
    var store := new GameStore([], [], [q]);
    var s := store.CreateGameSession(CreateGameSessionInput("Player", 1, 3), now);
    var unknown := SubmitAnswerInput(s.id + 1, q.id, q.correctAnswer, 2.0);
    var result := store.SubmitAnswer(unknown, now);
    assert result == Failure(SessionNotFound(s.id + 1));
    assert store.sessions == [s] && store.answers == [];
  }
}
