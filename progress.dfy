/** `getSessionProgress`: a read-only summary of one session's answer log:
    how many answers, how many correct, the mean stored time, how far the
    session is through its current level, and the five latest answers. */
module Progress {
  import opened Wrappers
  import opened Schema
  import opened Tables
  import opened Sessions
  import opened Content

  /** How many latest answers the summary carries. */
  const RecentCount: nat := 5

  datatype SessionProgress = SessionProgress(
    session: GameSession,
    totalQuestions: nat,
    correctAnswers: nat,
    averageTimePerQuestion: real,
    completionPercentage: real,
    recentAnswers: seq<GameAnswer>)

  function OfSession(sessionId: int): GameAnswer -> bool {
    (a: GameAnswer) => a.sessionId == sessionId
  }

  /** The session's rows of the answer log. */
  function SessionAnswers(answers: seq<GameAnswer>, sessionId: int): seq<GameAnswer> {
    Filter(answers, OfSession(sessionId))
  }

  function IsCorrect(a: GameAnswer): bool { a.isCorrect }

  /** Sort key putting later answers first (`ORDER BY answered_at DESC`). */
  function Recency(a: GameAnswer): Key { (-a.answeredAt, 0) }

  /** Sum of the stored (whole-second) times. */
  function TotalTime(rows: seq<GameAnswer>): (total: int)
    ensures rows == [] ==> total == 0
  {
    if rows == [] then 0 else rows[0].timeTakenSeconds + TotalTime(rows[1..])
  }

  /** Mean stored time, 0 when there are no answers. */
  function AverageTime(rows: seq<GameAnswer>): (avg: real)
    ensures |rows| == 0 ==> avg == 0.0
    ensures |rows| > 0 ==> avg * |rows| as real == TotalTime(rows) as real
  {
    if |rows| > 0 then TotalTime(rows) as real / |rows| as real else 0.0
  }

  /** If every time lies in [lo, hi], so does their sum scaled down. */
  lemma {:induction false} TotalTimeBounds(rows: seq<GameAnswer>, lo: int, hi: int)
    requires forall i :: 0 <= i < |rows| ==> lo <= rows[i].timeTakenSeconds <= hi
    ensures lo * |rows| <= TotalTime(rows) <= hi * |rows|
  {
    if rows != [] {
      var n := |rows[1..]|;
      TotalTimeBounds(rows[1..], lo, hi);
      assert TotalTime(rows) == rows[0].timeTakenSeconds + TotalTime(rows[1..]);
      assert lo * |rows| == lo * n + lo && hi * |rows| == hi * n + hi;
    }
  }

  /** Scaling a bound down by a positive count. */
  lemma DivideBounds(q: real, total: real, n: real, lo: real, hi: real)
    requires n > 0.0 && q * n == total
    requires lo * n <= total <= hi * n
    ensures lo <= q <= hi
  {
  }

  /** The mean lies between the smallest and the largest time. */
  lemma AverageWithinBounds(rows: seq<GameAnswer>, lo: int, hi: int)
    requires |rows| > 0
    requires forall i :: 0 <= i < |rows| ==> lo <= rows[i].timeTakenSeconds <= hi
    ensures lo as real <= AverageTime(rows) <= hi as real
  {
    var n, total := |rows|, TotalTime(rows);
    TotalTimeBounds(rows, lo, hi);
    BoundsAsReals(total, n, lo, hi);
    DivideBounds(AverageTime(rows), total as real, n as real, lo as real, hi as real);
  }

  /** Integer bounds on a sum carry over to reals. */
  lemma BoundsAsReals(total: int, n: int, lo: int, hi: int)
    requires lo * n <= total <= hi * n
    ensures lo as real * n as real <= total as real <= hi as real * n as real
  {
    assert (lo * n) as real == lo as real * n as real;
    assert (hi * n) as real == hi as real * n as real;
  }

  /** Share of the current level's required answers given so far, as a
      percentage capped at 100; 0 when the level is unknown or requires none. */
  function CompletionPercentage(levels: seq<GameLevel>, currentLevel: int, total: nat): (c: real)
    ensures 0.0 <= c <= 100.0
    ensures total == 0 ==> c == 0.0
    ensures c == 100.0 <==>
      (GetLevel(levels, currentLevel).Some?
       && GetLevel(levels, currentLevel).value.questionsRequired > 0
       && total >= GetLevel(levels, currentLevel).value.questionsRequired)
    ensures GetLevel(levels, currentLevel).None? ==> c == 0.0
    ensures GetLevel(levels, currentLevel).Some?
            && GetLevel(levels, currentLevel).value.questionsRequired <= 0 ==>
              c == 0.0
    ensures GetLevel(levels, currentLevel).Some?
            && total < GetLevel(levels, currentLevel).value.questionsRequired ==>
              c == total as real / GetLevel(levels, currentLevel).value.questionsRequired as real * 100.0
  {
    match GetLevel(levels, currentLevel)
    case None => 0.0
    case Some(level) =>
      var required := level.questionsRequired;
      if required > 0 then
        var ratio := total as real / required as real * 100.0;
        assert total < required ==> ratio < 100.0 by {
          if total < required {
            assert total as real / required as real < 1.0;
          }
        }
        if ratio <= 100.0 then ratio else 100.0
      else 0.0
  }

  /** The first `RecentCount` of the session's answers, latest first. */
  function RecentAnswers(rows: seq<GameAnswer>): (r: seq<GameAnswer>)
    ensures |r| == Min(RecentCount, |rows|)
    ensures multiset(r) <= multiset(rows)
    ensures forall i, j :: 0 <= i < j < |r| ==> r[i].answeredAt >= r[j].answeredAt
    ensures forall i, x :: 0 <= i < |r| && x in rows && x.answeredAt > r[i].answeredAt ==> x in r
  {
    var sorted := SortBy(rows, Recency);
    var r := Take(sorted, RecentCount);
    SortedPrefixIsLatest(rows, sorted, |r|);
    r
  }

  /** A prefix of the rows sorted latest first is itself latest first, and
      no row outside it is later than a row inside it. */
  lemma SortedPrefixIsLatest(rows: seq<GameAnswer>, sorted: seq<GameAnswer>, k: nat)
    requires SortedBy(sorted, Recency) && multiset(sorted) == multiset(rows) && k <= |sorted|
    ensures forall i, j :: 0 <= i < j < k ==> sorted[i].answeredAt >= sorted[j].answeredAt
    ensures forall i, x :: 0 <= i < k && x in rows && x.answeredAt > sorted[i].answeredAt ==> x in sorted[..k]
  {
    assert forall i, j :: 0 <= i < j < k ==> KeyLe(Recency(sorted[i]), Recency(sorted[j]));
    forall i, x | 0 <= i < k && x in rows && x.answeredAt > sorted[i].answeredAt
      ensures x in sorted[..k]
    {
      assert x in multiset(sorted);
      var j :| 0 <= j < |sorted| && sorted[j] == x;
      if j >= k {
        SortedPrefixIsSmallest(sorted, Recency, k, i, j);
      }
      assert sorted[..k][j] == x;
    }
  }

  /** Every recent answer is one of the session's stored answers. */
  lemma RecentAnswersOfSession(answers: seq<GameAnswer>, sessionId: int)
    ensures var recent := RecentAnswers(SessionAnswers(answers, sessionId));
            forall i :: 0 <= i < |recent| ==> recent[i] in answers && recent[i].sessionId == sessionId
  {
    var rows := SessionAnswers(answers, sessionId);
    var recent := RecentAnswers(rows);
    SubMultisetKeeps(recent, rows, OfSession(sessionId));
    forall i | 0 <= i < |recent| ensures recent[i] in answers {
      assert recent[i] in multiset(recent);
      assert recent[i] in rows;
    }
  }

  /** The summary of one session's answer rows. */
  function Summarize(session: GameSession, rows: seq<GameAnswer>, levels: seq<GameLevel>): (p: SessionProgress)
    ensures p.session == session
    ensures p.totalQuestions == |rows|
    ensures p.correctAnswers == Count(rows, IsCorrect) <= p.totalQuestions
    ensures 0.0 <= p.completionPercentage <= 100.0
    ensures p.averageTimePerQuestion == AverageTime(rows)
    ensures p.completionPercentage == CompletionPercentage(levels, session.currentLevel, |rows|)
    ensures p.recentAnswers == RecentAnswers(rows)
    ensures |p.recentAnswers| == Min(RecentCount, |rows|)
    ensures rows == [] ==>
              p.correctAnswers == 0 && p.averageTimePerQuestion == 0.0
              && p.completionPercentage == 0.0 && p.recentAnswers == []
  {
    SessionProgress(
      session,
      |rows|,
      Count(rows, IsCorrect),
      AverageTime(rows),
      CompletionPercentage(levels, session.currentLevel, |rows|),
      RecentAnswers(rows))
  }

  /** `getSessionProgress`: null for an unknown session; otherwise the
      stored session row and the summary of its answers. */
  function GetSessionProgress(sessions: seq<GameSession>, answers: seq<GameAnswer>,
                              levels: seq<GameLevel>, sessionId: int): (r: Option<SessionProgress>)
    ensures r.None? <==> GetGameSession(sessions, sessionId).None?
    ensures r.Some? ==> r.value.session == GetGameSession(sessions, sessionId).value
    ensures r.Some? ==> r.value == Summarize(r.value.session, SessionAnswers(answers, sessionId), levels)
    ensures r.Some? ==> r.value.totalQuestions == Count(answers, OfSession(sessionId))
    ensures r.Some? ==> r.value.correctAnswers <= r.value.totalQuestions
    ensures r.Some? ==> r.value.correctAnswers == Count(SessionAnswers(answers, sessionId), IsCorrect)
    ensures r.Some? ==> 0.0 <= r.value.completionPercentage <= 100.0
    ensures r.Some? ==> |r.value.recentAnswers| == Min(RecentCount, r.value.totalQuestions)
    ensures r.Some? ==> forall i :: 0 <= i < |r.value.recentAnswers| ==>
                          r.value.recentAnswers[i] in answers && r.value.recentAnswers[i].sessionId == sessionId
    ensures r.Some? && r.value.totalQuestions == 0 ==>
              r.value.correctAnswers == 0 && r.value.averageTimePerQuestion == 0.0
              && r.value.completionPercentage == 0.0 && r.value.recentAnswers == []
  {
    match GetGameSession(sessions, sessionId)
    case None => None
    case Some(session) =>
      RecentAnswersOfSession(answers, sessionId);
      Some(Summarize(session, SessionAnswers(answers, sessionId), levels))
  }
}
