/** The read-only content queries: levels, letters and questions. None of
    them writes; each returns a lookup, an ordering, a filter or a limited
    random selection of a content table. */
module Content {
  import opened Wrappers
  import opened Schema
  import opened Tables

  /** `getLevel`: the level with the requested number, or null. */
  function GetLevel(levels: seq<GameLevel>, levelNumber: int): (r: Option<GameLevel>)
    ensures r.None? <==> forall i :: 0 <= i < |levels| ==> levels[i].levelNumber != levelNumber
    ensures r.Some? ==> r.value in levels && r.value.levelNumber == levelNumber
  {
    match IndexWhere(levels, (l: GameLevel) => l.levelNumber == levelNumber)
    case None => None
    case Some(i) => Some(levels[i])
  }

  /** `getAllLevels`: every stored level, ascending by level number. */
  function GetAllLevels(levels: seq<GameLevel>): (r: seq<GameLevel>)
    ensures multiset(r) == multiset(levels)
    ensures forall i, j :: 0 <= i < j < |r| ==> r[i].levelNumber <= r[j].levelNumber
    ensures levels == [] ==> r == []
  {
    SortBy(levels, (l: GameLevel) => (l.levelNumber, 0))
  }

  /** `getHijaiyyahLetters`: every stored letter, ascending by level and,
      within a level, by id. */
  function GetHijaiyyahLetters(letters: seq<HijaiyyahLetter>): (r: seq<HijaiyyahLetter>)
    ensures multiset(r) == multiset(letters)
    ensures forall i, j :: 0 <= i < j < |r| ==> r[i].level <= r[j].level
    ensures forall i, j :: 0 <= i < j < |r| && r[i].level == r[j].level ==> r[i].id <= r[j].id
    ensures letters == [] ==> r == []
  {
    var r := SortBy(letters, (x: HijaiyyahLetter) => (x.level, x.id));
    assert forall i, j :: 0 <= i < j < |r| ==> KeyLe((r[i].level, r[i].id), (r[j].level, r[j].id));
    r
  }

  /** `getLettersByLevel`: exactly the stored letters of that level, in
      stored order. */
  function GetLettersByLevel(letters: seq<HijaiyyahLetter>, levelNumber: int): (r: seq<HijaiyyahLetter>)
    ensures forall i :: 0 <= i < |r| ==> r[i].level == levelNumber
    ensures forall i :: 0 <= i < |letters| && letters[i].level == levelNumber ==> letters[i] in r
    ensures multiset(r) <= multiset(letters)
    ensures (forall i :: 0 <= i < |letters| ==> letters[i].level != levelNumber) ==> r == []
  {
    var r := Filter(letters, (x: HijaiyyahLetter) => x.level == levelNumber);
    assert r != [] ==> r[0] in letters;
    r
  }

  /** Letters stored later come later in the answer: the query keeps the
      stored order. */
  lemma LettersByLevelKeepsOrder(earlier: seq<HijaiyyahLetter>, later: seq<HijaiyyahLetter>, levelNumber: int)
    ensures GetLettersByLevel(earlier + later, levelNumber)
            == GetLettersByLevel(earlier, levelNumber) + GetLettersByLevel(later, levelNumber)
  {
    FilterAppend(earlier, later, (x: HijaiyyahLetter) => x.level == levelNumber);
  }

  /** The filter `getQuestions` builds: the level always, the type when given. */
  predicate MatchesQuery(q: Question, input: GetQuestionsInput) {
    q.levelId == input.levelId
    && (input.questionType.Some? ==> q.questionType == input.questionType.value)
  }

  function MatchingQuestions(questions: seq<Question>, input: GetQuestionsInput): seq<Question> {
    Filter(questions, (q: Question) => MatchesQuery(q, input))
  }

  /** `getQuestions`: up to `limit` of the matching stored questions in a
      random order; `picks` is the source of randomness. */
  function GetQuestions(questions: seq<Question>, input: GetQuestionsInput, picks: seq<nat>): (r: seq<Question>)
    requires input.limit >= 0
    ensures forall i :: 0 <= i < |r| ==> r[i].levelId == input.levelId
    ensures input.questionType.Some? ==> forall i :: 0 <= i < |r| ==> r[i].questionType == input.questionType.value
    ensures |r| == Min(input.limit, |MatchingQuestions(questions, input)|)
    ensures multiset(r) <= multiset(MatchingQuestions(questions, input)) <= multiset(questions)
    ensures input.limit >= |MatchingQuestions(questions, input)| ==> multiset(r) == multiset(MatchingQuestions(questions, input))
  {
    var matches := MatchingQuestions(questions, input);
    var shuffled := Shuffle(matches, picks);
    var r := Take(shuffled, input.limit);
    SubMultisetKeeps(r, matches, (q: Question) => MatchesQuery(q, input));
    r
  }

  /** A level with no stored questions yields nothing. */
  lemma UnknownLevelNoQuestions(questions: seq<Question>, input: GetQuestionsInput, picks: seq<nat>)
    requires input.limit >= 0
    requires forall i :: 0 <= i < |questions| ==> questions[i].levelId != input.levelId
    ensures GetQuestions(questions, input, picks) == []
  {
    var m := MatchingQuestions(questions, input);
    if m != [] {
      assert m[0] in questions;
    }
  }

  /** When the stored ids are distinct, no question is returned twice. */
  lemma QuestionsAreDistinct(questions: seq<Question>, input: GetQuestionsInput, picks: seq<nat>)
    requires input.limit >= 0
    requires DistinctIds(questions, (q: Question) => q.id)
    ensures var r := GetQuestions(questions, input, picks);
            forall i, j :: 0 <= i < j < |r| ==> r[i] != r[j]
  {
    SubMultisetOfDistinct(GetQuestions(questions, input, picks), questions, (q: Question) => q.id);
  }
}
