/** The points rule shared by the answer handler and the client's offline
    fallback: a correct answer earns a base of 10 plus a speed bonus that
    loses one point per two seconds taken and never goes below zero; a wrong
    answer costs 2 points whatever the time. */
module Scoring {

  const BasePoints: int := 10
  const MaxSpeedBonus: int := 5
  const WrongPenalty: int := -2

  function Max(a: int, b: int): int { if a >= b then a else b }

  /** `max(0, 5 - floor(t / 2))`. */
  function SpeedBonus(t: real): (b: int)
    ensures b >= 0
    ensures t >= 0.0 ==> b <= MaxSpeedBonus
  {
    Max(0, MaxSpeedBonus - (t / 2.0).Floor)
  }

  /** The points `submitAnswer` awards. */
  function Points(isCorrect: bool, t: real): (p: int)
    ensures !isCorrect ==> p == WrongPenalty
    ensures isCorrect ==> p >= BasePoints
    ensures isCorrect && t >= 0.0 ==> p <= BasePoints + MaxSpeedBonus
  {
    if isCorrect then BasePoints + SpeedBonus(t) else WrongPenalty
  }

  /** A correct answer given in a non-negative time earns 10 to 15 points;
      a wrong one earns exactly -2. */
  lemma PointsRange(isCorrect: bool, t: real)
    requires t >= 0.0
    ensures isCorrect ==> 10 <= Points(isCorrect, t) <= 15
    ensures !isCorrect ==> Points(isCorrect, t) == -2
  {
  }

  /** Under two seconds earns the full bonus. */
  lemma FastAnswerFullBonus(t: real)
    requires 0.0 <= t < 2.0
    ensures Points(true, t) == 15
  {
  }

  /** Ten seconds or more earns only the base. */
  lemma SlowAnswerBaseOnly(t: real)
    requires t >= 10.0
    ensures Points(true, t) == 10
  {
  }

  /** Within the k-th two-second bucket (k < 5) a correct answer earns 15 - k. */
  lemma PointsPerBucket(k: nat, t: real)
    requires k < 5
    requires 2.0 * k as real <= t < 2.0 * k as real + 2.0
    ensures Points(true, t) == 15 - k
  {
    assert k as real <= t / 2.0 < k as real + 1.0;
  }

  /** Taking longer never earns more. */
  lemma PointsAntitone(isCorrect: bool, t1: real, t2: real)
    requires t1 <= t2
    ensures Points(isCorrect, t2) <= Points(isCorrect, t1)
  {
    assert t1 / 2.0 <= t2 / 2.0;
  }

  /** The values fixed by the handler's tests. */
  lemma ExamplePoints()
    ensures Points(true, 1.5) == 15
    ensures Points(true, 1.0) == 15
    ensures Points(true, 4.5) == 13
    ensures Points(true, 15.0) == 10
    ensures Points(false, 2.0) == -2
  {
    FastAnswerFullBonus(1.5);
    FastAnswerFullBonus(1.0);
    PointsPerBucket(2, 4.5);
    SlowAnswerBaseOnly(15.0);
  }
}
