# Hijaiyyah quiz game: session and scoring engine

A Dafny model of the core of a quiz game that teaches the Arabic
(Hijaiyyah) alphabet. A player starts a game session, answers visual and
auditory identification questions level by level, earns points for correct
answers (more for fast ones), loses points on the server and a life on the
client for wrong ones, and moves to the next level when a level's questions
are done.

The model covers:

- the request schemas and their defaults (`Schema`) and the five tables with
  their column defaults and serial ids (`DbSchema`);
- the points rule (`Scoring`);
- the read-only content queries: a level by number, all levels, all letters,
  letters of a level, and a random selection of questions (`Content`);
- session lookup and the partial-update rule (`Sessions`);
- the per-session progress summary (`Progress`);
- the three handlers that write: create a session, update a session, submit
  an answer, as methods of a `GameStore` class whose fields are the tables
  (`Store`);
- the client's screen machine (menu, playing, results, game over) with its
  score, lives and question position, as a `Game` class (`GameFlow`).

Shared building blocks are in `Tables`: a first-match lookup, an
order-keeping filter, a prefix, a stable insertion sort, and a shuffle
driven by a sequence of picks. `Wrappers` holds `Option` and `Result`.

Timestamps are integers and the current time is a parameter `now`. The
database's `ORDER BY RANDOM()` is modelled by a `picks` parameter, the
random source. Answer times are `real`: the handler stores
`floor(time)` in the integer column and echoes the time as given in its
response. Every check a handler makes itself is a `Result` failure with
the error it throws; errors raised by the database are not modelled (see
"## Left out").

Two facts about session rows that the model states outright:

- `server/src/handlers/update_game_session.ts:33-40` stamps `session_end`
  with the current time on every update that carries `is_active: false`,
  also for a session that is already inactive, and leaves it in place when
  a session is reactivated. So "inactive implies ended" holds
  (`Sessions.ApplyUpdateKeepsEnded`) and "ended implies inactive" does not
  (`Sessions.ReactivationKeepsEndStamp`).
- The create-session schema (`server/src/schema.ts:79-80`) bounds neither
  the starting level nor the starting lives, so
  `Schema.ParseCreateGameSessionInput` accepts any integers there.

## Model

| member | source | states |
|---|---|---|
| Schema.ParseQuestionType | server/src/schema.ts:48 | exactly the two wire names `visual_identification` and `auditory_identification` are accepted, and each maps back to its name |
| Schema.QuestionTypeRoundTrip | server/src/db/schema.ts:4 | parsing the wire name of a question type gives that type back |
| Schema.ParseCreateGameSessionInput | server/src/schema.ts:77-81 | succeeds iff the player name is non-empty, otherwise a validation error; a missing level becomes 1 and missing lives become 3; supplied values are kept |
| Schema.ValidateSubmitAnswerInput | server/src/schema.ts:97-102 | succeeds iff the time taken is strictly positive, returning the input unchanged |
| Schema.ParseGetQuestionsInput | server/src/schema.ts:107-111 | succeeds iff the type is absent or one of the two wire names; the level is kept, the type is parsed, and a missing limit becomes 10 |
| DbSchema.LetterRow | server/src/db/schema.ts:7-15 | an inserted letter gets the serial id and `created_at = now` and keeps its glyph, name, pronunciation, level and audio URL (null when not supplied) |
| DbSchema.LevelRow | server/src/db/schema.ts:18-27 | an inserted level keeps its number, name, description, requirement and letters, with `created_at = now`; `is_unlocked` defaults to false |
| DbSchema.SessionRow | server/src/db/schema.ts:30-40 | an inserted session defaults to level 1, score 0, 3 lives and active; `session_end` is null unless supplied; both stamps are `now` |
| DbSchema.NameOnlySessionDefaults | server/src/db/schema.ts:30-40 | a session inserted with only a name starts at level 1, score 0, 3 lives, active and not ended |
| DbSchema.QuestionRow | server/src/db/schema.ts:43-52 | an inserted question keeps type, level, letter, answer and options, with `created_at = now`; difficulty defaults to 1 |
| DbSchema.AnswerRow | server/src/db/schema.ts:55-65 | an inserted answer keeps its fields; points default to 0; `answered_at` and `created_at` are `now` |
| Scoring.Points | server/src/handlers/submit_answer.ts:38-47 | a wrong answer earns -2; a correct one at least 10, and at most 15 for a non-negative time |
| Scoring.SpeedBonus | server/src/handlers/submit_answer.ts:42 | the speed bonus is never negative and, for a non-negative time, at most 5 |
| Scoring.PointsRange | server/src/handlers/submit_answer.ts:37-47 | a correct answer earns 10 to 15 points; a wrong one earns exactly -2 whatever the time |
| Scoring.FastAnswerFullBonus | server/src/handlers/submit_answer.ts:41-43 | a correct answer in under 2 seconds earns 15 |
| Scoring.SlowAnswerBaseOnly | server/src/handlers/submit_answer.ts:40-43 | a correct answer taking 10 seconds or more earns only the base 10 |
| Scoring.PointsPerBucket | server/src/handlers/submit_answer.ts:42 | a correct answer in the k-th two-second window (k < 5) earns 15 - k |
| Scoring.PointsAntitone | server/src/handlers/submit_answer.ts:37-47 | answering more slowly never earns more points |
| Scoring.ExamplePoints | server/src/tests/submit_answer.test.ts:82-200 | 1.5 s and 1.0 s earn 15, 4.5 s earns 13, 15 s earns 10, and a wrong answer earns -2 |
| Content.GetLevel | server/src/handlers/get_level.ts:9-18 | null iff no level has that number; otherwise a stored level with that number |
| Content.GetAllLevels | server/src/handlers/get_all_levels.ts:9-18 | a permutation of the stored levels, ascending by level number |
| Content.GetHijaiyyahLetters | server/src/handlers/get_hijaiyyah_letters.ts:9-14 | a permutation of the stored letters, ascending by level and by id within a level |
| Content.GetLettersByLevel | server/src/handlers/get_letters_by_level.ts:8-13 | every returned letter has that level, every stored letter of that level is returned, nothing else is, and no letters of that level gives the empty list |
| Content.LettersByLevelKeepsOrder | server/src/handlers/get_letters_by_level.ts:8-13 | the result keeps the stored order: the query over two stretches of the table is the two answers concatenated |
| Content.GetQuestions | server/src/handlers/get_questions.ts:9-25 | every result is of the requested level and, when given, type; the count is the smaller of the limit and the number of matches; the results are drawn without repetition from the matches, and are all of them when the limit allows |
| Content.UnknownLevelNoQuestions | server/src/handlers/get_questions.ts:12-25 | a level with no stored questions yields the empty list |
| Content.QuestionsAreDistinct | server/src/handlers/get_questions.ts:20-25 | with distinct stored ids, no question is returned twice |
| Sessions.GetGameSession | server/src/handlers/get_game_session.ts:9-31 | null iff no session has the id; otherwise a stored row with that id, all fields copied |
| Sessions.GetGameSessionUnique | server/src/handlers/get_game_session.ts:19-20 | with serial (distinct) ids, the lookup returns exactly the row holding the id |
| Sessions.ApplyUpdateFields | server/src/handlers/update_game_session.ts:18-40 | each supplied field, zero and false included, overwrites the stored one; absent fields keep their value; `is_active: false` stamps `session_end` with `now`; id, name and stamps never change |
| Sessions.ApplyUpdate | server/src/handlers/update_game_session.ts:19-40 | the row an update writes keeps the id, name and stamps; an update with no fields keeps the row; `is_active: false` leaves the session inactive with `session_end = now` |
| Sessions.ApplyUpdateIdempotent | server/src/handlers/update_game_session.ts:18-47 | applying the same update twice at the same instant writes the same row as applying it once |
| Sessions.ApplyUpdateKeepsEnded | server/src/handlers/update_game_session.ts:33-40 | every update keeps "inactive implies ended" |
| Sessions.ReactivationKeepsEndStamp | server/src/handlers/update_game_session.ts:33-40 | reactivating an ended session leaves its end stamp, so "ended implies inactive" is not kept |
| Progress.TotalTime | server/src/handlers/get_session_progress.ts:44 | the sum of the stored times, 0 for no answers; its bounds are `Progress.TotalTimeBounds` |
| Progress.AverageTime | server/src/handlers/get_session_progress.ts:44-45 | 0 with no answers; otherwise the mean times the count equals the sum of the stored times |
| Progress.TotalTimeBounds | server/src/handlers/get_session_progress.ts:44 | if every time is within [lo, hi], the sum is within [lo·n, hi·n] |
| Progress.AverageWithinBounds | server/src/handlers/get_session_progress.ts:44-45 | the mean lies between the smallest and the largest stored time |
| Progress.CompletionPercentage | server/src/handlers/get_session_progress.ts:47-57 | between 0 and 100; 0 with no answers, an unknown level or a level requiring none; exactly answers/required·100 below the requirement; 100 iff the level requires some and they have all been answered |
| Progress.RecentAnswers | server/src/handlers/get_session_progress.ts:30-37 | the first min(5, n) answers, latest first, drawn from the session's rows, with no later answer left out |
| Progress.SortedPrefixIsLatest | server/src/handlers/get_session_progress.ts:33-37 | a prefix of the rows sorted latest first is latest first and leaves out no later row |
| Progress.RecentAnswersOfSession | server/src/handlers/get_session_progress.ts:30-37 | every recent answer is a stored answer of that session |
| Progress.Summarize | server/src/handlers/get_session_progress.ts:36-72 | total is the number of rows, correct is the number of correct rows and at most the total, the mean is `AverageTime` of the rows, completion is `CompletionPercentage` for the session's level, recent is `RecentAnswers` of the rows (latest first, at most 5), and with no rows every figure is zero and the recent list empty |
| Progress.GetSessionProgress | server/src/handlers/get_session_progress.ts:15-86 | null iff the session is unknown; otherwise exactly the summary (`Summarize`) of that session's answer rows: the stored session, the count of its answers and of its correct ones, their mean time, the completion for its level within [0, 100], and min(5, total) of its answers latest first |
| Store.InsertKeepsSerialIds | server/src/db/schema.ts:56 | inserting a row with the next serial id and advancing the counter keeps the ids distinct and below the counter |
| Store.SessionPointsAppend | server/src/handlers/submit_answer.ts:50-60 | appending an answer adds its points to its own session's logged total only |
| Store.ScoreAndLogMoveTogether | server/src/handlers/submit_answer.ts:49-69 | logging an answer and adding its points to its session's score leaves every session's score minus its logged points unchanged |
| Store.ValidateSubmission | server/src/handlers/submit_answer.ts:8-32 | checks in order: unknown session, inactive session, unknown question, each with its own error; on success the active session's position and the question |
| Store.GameStore.CreateGameSession | server/src/handlers/create_game_session.ts:5-20 | appends one session with a fresh id, the caller's name, level and lives, score 0, active and not ended |
| Store.GameStore.UpdateGameSession | server/src/handlers/update_game_session.ts:6-49 | fails with not-found iff no session has the id, changing nothing; otherwise that row alone becomes the updated row, which is returned |
| Store.GameStore.SubmitAnswer | server/src/handlers/submit_answer.ts:6-75 | fails with the validation error and changes nothing when the request is refused; otherwise appends one answer (time floored, points by the rule) and adds its points to that session's score alone; the response carries the time as given; score-minus-logged-points is kept for every session |
| Store.GameStore.RecordAnswer | server/src/handlers/submit_answer.ts:49-69 | the two writes of an accepted answer: one log row with the next id, then the session's score moves by its points |
| Store.GameStore.InsertAnswer | server/src/handlers/submit_answer.ts:50-62 | the answer insert appends exactly one row with the next serial id |
| Store.GameStore.SetScore | server/src/handlers/submit_answer.ts:64-69 | the score update rewrites one session's score and nothing else |
| GameFlow.FallbackPoints | client/src/App.tsx:204-208 | the client's own scoring: -2 for a wrong answer, at least 10 for a correct one and at most 15 for a non-negative time |
| GameFlow.FallbackMatchesServer | client/src/App.tsx:204-209 | the client's offline scoring agrees with the server's rule on every input |
| GameFlow.Game.constructor | client/src/App.tsx:17-24 | the client starts at the menu with no session, no questions, score 0 and 3 lives |
| GameFlow.Game.StartGame | client/src/App.tsx:173-178 | play starts at the first question with the session's score and lives |
| GameFlow.Game.HandleAnswerSubmit | client/src/App.tsx:187-232 | no change without a session or current question; a correct answer adds its non-negative points; a wrong one costs one life and ends the game at zero; otherwise the next question or the results; the score never falls and lives fall by at most one |
| GameFlow.Game.NextLevel | client/src/App.tsx:240-297 | with a session, moves to the next level number with fresh questions at the first one when that level exists, and back to the menu otherwise |
| GameFlow.Game.RestartGame | client/src/App.tsx:299-307 | back to the menu with no session, no questions, score 0 and 3 lives |

## Left out

- Content.GetQuestions: requires a non-negative limit. The schema accepts any integer, and what a negative `LIMIT` does is up to the database.
- Store.GameStore.SubmitAnswer: requires a positive time, because the request schema refuses any other before the handler runs (`Schema.ValidateSubmitAnswerInput`).
- Store.GameStore.UpdateGameSession: an update that supplies no field returns the row unchanged. The query builder's behaviour on an empty `SET` is not part of this model.
- Progress.GetSessionProgress: does not model rounding the mean time and the completion percentage to two decimals; both are exact reals.
- Progress.RecentAnswers: rows with equal `answered_at` come in an order SQL leaves open. The model states only the ordering and which rows are kept. The same goes for `Content.GetAllLevels` with equal level numbers.
- Store.GameStore.CreateGameSession: does not model the 32-bit `integer` columns (`server/src/db/schema.ts:33-35`). Model integers are unbounded. The database refuses a `current_level` or `lives_remaining` outside [-2^31, 2^31-1], and the handler then throws. The model appends the row anyway.
- Store.GameStore.UpdateGameSession: does not model the 32-bit `integer` columns (`server/src/db/schema.ts:33-35`). The database refuses an update whose `current_level`, `current_score` or `lives_remaining` is outside [-2^31, 2^31-1], and the handler throws. The model writes the row anyway.
- Store.GameStore.SubmitAnswer: does not model the 32-bit `integer` columns (`server/src/db/schema.ts:35,61-62`). A time of 2^31 seconds or more fails the answer insert and the handler throws, but the model logs the answer. A new score past 2^31-1 fails the score update after the answer row is already inserted. The answer then stays logged and the score does not move. The model instead promises both writes and keeps every session's score-minus-logged-points, which the source does not do in that case.
- Store.GameStore.SubmitAnswer: the read, the insert and the score update are separate statements with no transaction. Requests here run one at a time, so interleavings between concurrent submissions are not modelled.
- The query builder, SQL and the database driver are not part of this model. Tables are sequences in memory, and ids come from counters.
- The RPC router (`server/src/index.ts`) and the HTTP transport are not part of this model. The wall clock is the `now` parameter and `RANDOM()` is the `picks` parameter.
- The client's server calls are parameters of its handlers. For example, `HandleAnswerSubmit` takes the server's points, or none when the call failed. The client's demo fallback data, loading flags, error banners and logging are left out.
- The React screens (`GameMenu`, `GamePlay`, `GameResults`), audio playback, the per-question timer and the results rating are presentation and are not modelled.
- Error message texts are not modelled; only which error is raised.
