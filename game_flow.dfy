/** The client's game flow: the four-state screen machine with the score,
    lives and question position the client keeps, and the handlers that
    move it. Server calls are parameters: their results are passed in. */
module GameFlow {
  import opened Wrappers
  import opened Schema
  import opened Scoring
  import Content

  datatype GameState = Menu | Playing | Results | GameOver

  const StartingLives: int := 3

  /** The client's own copy of the points rule, used when the server call
      fails. */
  function FallbackPoints(isCorrect: bool, timeTaken: real): (p: int)
    ensures !isCorrect ==> p == -2
    ensures isCorrect ==> p >= 10
    ensures isCorrect && timeTaken >= 0.0 ==> p <= 15
  {
    var basePoints := 10;
    var speedBonus := Max(0, 5 - (timeTaken / 2.0).Floor);
    if isCorrect then basePoints + speedBonus else -2
  }

  /** The client's fallback agrees with the server's rule on every input. */
  lemma FallbackMatchesServer(isCorrect: bool, timeTaken: real)
    ensures FallbackPoints(isCorrect, timeTaken) == Points(isCorrect, timeTaken)
  {
  }

  class Game {
    var state: GameState
    var session: Option<GameSession>
    var levels: seq<GameLevel>
    var questions: seq<Question>
    var questionIndex: nat
    var score: int
    var lives: int

    /** The menu with the levels the client loaded, before any game. */
    constructor (levels: seq<GameLevel>)
      ensures state == Menu && session.None? && this.levels == levels && questions == []
      ensures questionIndex == 0 && score == 0 && lives == StartingLives
    {
      state := Menu;
      session := None;
      this.levels := levels;
      questions := [];
      questionIndex := 0;
      score := 0;
      lives := StartingLives;
    }

    /** The end of `startGame`, once the session and its questions are in
        hand: play begins at the first question with the session's score
        and lives. */
    method StartGame(newSession: GameSession, newQuestions: seq<Question>)
      modifies this
      ensures session == Some(newSession) && questions == newQuestions && questionIndex == 0
      ensures score == newSession.currentScore && lives == newSession.livesRemaining
      ensures state == Playing && levels == old(levels)
    {
      session := Some(newSession);
      score := newSession.currentScore;
      lives := newSession.livesRemaining;
      questions := newQuestions;
      questionIndex := 0;
      state := Playing;
    }

    /** `handleAnswerSubmit`. `submitted` is the points the server awarded,
        or None when the call failed and the client scores the answer
        itself. Nothing happens without a session or a current question. A
        correct answer adds its points (never fewer than 0) to the score; a
        wrong one costs a life and ends the game when none are left. Unless
        the game ended, play moves to the next question, or to the results
        after the last one. */
    method HandleAnswerSubmit(selectedAnswer: string, timeTaken: real, submitted: Option<int>)
      modifies this
      ensures session == old(session) && questions == old(questions) && levels == old(levels)
      ensures old(session).None? || old(questionIndex) >= |questions| ==>
                state == old(state) && questionIndex == old(questionIndex)
                && score == old(score) && lives == old(lives)
      ensures old(session).Some? && old(questionIndex) < |questions| ==>
        var isCorrect := selectedAnswer == questions[old(questionIndex)].correctAnswer;
        var points := match submitted case Some(p) => p case None => FallbackPoints(isCorrect, timeTaken);
        var lost := !isCorrect && old(lives) - 1 <= 0;
        && (isCorrect ==> score == old(score) + Max(points, 0) && lives == old(lives))
        && (!isCorrect ==> score == old(score) && lives == old(lives) - 1)
        && (lost ==> state == GameOver && questionIndex == old(questionIndex))
        && (!lost && old(questionIndex) + 1 >= |questions| ==>
              state == Results && questionIndex == old(questionIndex))
        && (!lost && old(questionIndex) + 1 < |questions| ==>
              state == old(state) && questionIndex == old(questionIndex) + 1)
      ensures old(score) <= score && old(lives) - 1 <= lives <= old(lives)
    {
      if session.None? || questionIndex >= |questions| {
        return;
      }
      var question := questions[questionIndex];
      var isCorrect := selectedAnswer == question.correctAnswer;
      var pointsEarned := match submitted case Some(p) => p case None => FallbackPoints(isCorrect, timeTaken);

      if isCorrect {
        score := score + Max(pointsEarned, 0);
      } else {
        lives := lives - 1;
        if lives <= 0 {
          state := GameOver;
          return;
        }
      }

      if questionIndex + 1 >= |questions| {
        state := Results;
      } else {
        questionIndex := questionIndex + 1;
      }
    }

    /** `nextLevel`: with a session, moves to the next level number when a
        level with that number exists (its questions are `nextQuestions`,
        play restarts at the first), and back to the menu otherwise. */
    method NextLevel(nextQuestions: seq<Question>)
      modifies this
      ensures levels == old(levels) && score == old(score) && lives == old(lives)
      ensures old(session).None? ==>
                state == old(state) && session == old(session)
                && questions == old(questions) && questionIndex == old(questionIndex)
      ensures old(session).Some? ==>
        var next := old(session).value.currentLevel + 1;
        if Content.GetLevel(levels, next).Some? then
          && session == Some(old(session).value.(currentLevel := next))
          && questions == nextQuestions && questionIndex == 0 && state == Playing
        else
          && state == Menu && session == old(session)
          && questions == old(questions) && questionIndex == old(questionIndex)
    {
      if session.None? {
        return;
      }
      var current := session.value;
      var nextLevelNumber := current.currentLevel + 1;
      if Content.GetLevel(levels, nextLevelNumber).Some? {
        questions := nextQuestions;
        questionIndex := 0;
        session := Some(current.(currentLevel := nextLevelNumber));
        state := Playing;
      } else {
        state := Menu;
      }
    }

    /** `restartGame`: back to the menu with no session, no questions, a
        zero score and full lives. */
    method RestartGame()
      modifies this
      ensures session.None? && questions == [] && questionIndex == 0
      ensures score == 0 && lives == StartingLives && state == Menu
      ensures levels == old(levels)
    {
      session := None;
      questions := [];
      questionIndex := 0;
      score := 0;
      lives := StartingLives;
      state := Menu;
    }
  }

  /** With three lives, three wrong answers in a row end the game. */
  method ThreeMistakesScenario(s: GameSession, q: Question)
    requires s.livesRemaining == StartingLives
  {
    var game := new Game([]);
    game.StartGame(s, [q, q, q, q]);
    var wrong := q.correctAnswer + "x";
    assert |wrong| != |q.correctAnswer|;
    game.HandleAnswerSubmit(wrong, 1.0, None);
    assert game.lives == 2 && game.questionIndex == 1 && game.state == Playing;
    game.HandleAnswerSubmit(wrong, 1.0, None);
    assert game.lives == 1 && game.questionIndex == 2;
    game.HandleAnswerSubmit(wrong, 1.0, None);
    assert game.lives == 0 && game.state == GameOver && game.questionIndex == 2;
  }
}
