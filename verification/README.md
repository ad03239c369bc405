# Monthly AI diagnosis of trainees — a Dafny model

The application runs a monthly batch over every trainee. For each trainee it
gathers the month's goals, activities and reflections into one text. It asks
a language model for three results: a sentiment analysis, a 60-item
personality questionnaire, and a summary. It stores one diagnosis row per
(trainee, year, month). It then asks for five follow-up question suggestions.

Trainees read their diagnosis history over the last N months. Trainers read
the latest diagnosis of each assigned trainee. A month navigator pages
between months.

This project models that core as pure Dafny functions, with lemmas about them:

| module | what it models |
|---|---|
| `Constants` | the reverse-scored items, the trait-to-item table, the item count and the minimum text length |
| `Scorer` | reverse scoring, the rounded trait mean (in tenths), the fallback HIGH/LOW level, the seven-trait table |
| `PersonalityParser` | the two global regular-expression scans over the model's answer and the score/level maps they build |
| `ParserSample` | text in the questionnaire's answer shape parses back exactly; the parser test script's sample, worked through to its trait scores |
| `ModelKey` | choosing the model from the `provider:model-id` key, and its error cases |
| `Calendar` | (year, month) arithmetic, month steps, and the Monday that starts the week |
| `Analysis` | the sentiment and question-suggestion schemas, the corpus collection, the UTF-16 text length, and the trend against last month |
| `Batch` | `runMonthlyAnalysis` as a fold over the trainees: skip rules, the time budget, the upsert, suggestion replacement, and the tally |
| `DiagnosisQueries` | the N-month history window, including the faulty year arithmetic as written, and the latest diagnosis per trainee |
| `MonthNavigator` | the previous and next buttons and when next is disabled |

Modelling choices:

- A trait score is an integer number of tenths: 3.4 is `Tenths(34)`.
- `Math.round(sum / n * 10) / 10` becomes `RoundTenths(sum, n)`. It is the
  unique `r` with `n(2r-1) <= 20 sum < n(2r+1)`, i.e. rounding half up.
- A trait with a missing item gives `NaN`, as the arithmetic on `undefined`
  does in the source.
- A regular-expression scan with the global flag becomes a recursion over
  suffixes of the text. A match at the start is consumed whole; otherwise one
  character is skipped.
- `\d` is an ASCII digit. `\s` is the ECMAScript white-space and
  line-terminator set. `.` is every character except the four line
  terminators.
- The three-character Japanese trait labels are the same code points as in
  the source.
- The database is a map from (user, year, month) to a diagnosis row. A
  second map holds question suggestions, keyed by diagnosis id.
- Each outside answer about one trainee is a field of that trainee's
  `Subject` record. Such answers are: the goal query, what each generator
  returns or throws, the upsert's outcome and clock, and the elapsed time at
  the budget check.
- The current month, the start of the week and the model key are a
  `Context`.
- `text.length` counts UTF-16 code units. A character above U+FFFF counts
  two.
- JavaScript's `%` truncates toward zero and `Math.ceil` rounds up. Both are
  written out (`JsRem`, `CeilDiv`).

`runMonthlyAnalysis` in `lib/ai/analysis.ts` visits each trainee once, with
no retry pass and no delay between trainees: a failed trainee is counted
once and the loop moves on.

## Model

| member | source | states |
|---|---|---|
| Constants.TraitGroupsPartition | lib/ai/constants.ts:17-30 | every item 1..60 belongs to exactly one trait group, and the groups together are exactly the 60 items |
| Constants.TraitGroupSizes | lib/ai/constants.ts:18-24 | five traits have ten items, honesty-humility three, curiosity seven; no group is empty |
| Constants.GroupsAreRuns | lib/ai/constants.ts:18-24 | each trait's items are a contiguous run of item numbers |
| Constants.ReverseItemsWellFormed | lib/ai/constants.ts:5-12 | 22 distinct reverse items, each a valid item number |
| Constants.ReverseItemsPerTrait | lib/ai/constants.ts:5-12 | each commented block of reverse items lies in its trait; every honesty-humility item is reversed and no curiosity item is |
| Constants.TraitsTable | lib/ai/constants.ts:17-25 | the table lists seven distinct traits under seven distinct keys |
| Constants.TraitOfKey | lib/ai/constants.ts:17-25 | looking a key up in the table finds the trait with that key, and only that one |
| Scorer.ReverseScore | lib/ai/personality-parser.ts:16-18 | keeps an answer in 1..5, and either keeps it or reflects it to 6 - score |
| Scorer.ReverseScoreInvolution | lib/ai/personality-parser.ts:16-18 | reversing twice is the identity; the score changes exactly for a listed item whose answer is not 3 |
| Scorer.CorrectedSum | lib/ai/personality-parser.ts:28 | a sum exists exactly when every item of the group is answered |
| Scorer.CorrectedSumBounds | lib/ai/personality-parser.ts:28 | for answers in 1..5 the sum of n corrected answers lies between n and 5n |
| Scorer.CorrectedSumOf | lib/ai/personality-parser.ts:28 | the sum is the plain sum of the items' reverse-corrected answers, in order |
| Scorer.RoundTenths | lib/ai/personality-parser.ts:29 | the result is the mean times ten rounded half up, as a two-sided bound; a mean in 1..5 rounds to 1.0..5.0 |
| Scorer.RoundTenthsUnique | lib/ai/personality-parser.ts:29 | the rounding bound determines the result uniquely |
| Scorer.GroupScore | lib/ai/personality-parser.ts:28-29 | a group's score is NaN exactly when one of its items is unanswered; with all answers in 1..5 it is a number in 1.0..5.0 |
| Scorer.GroupScoreIsRoundedMean | lib/ai/personality-parser.ts:28-29 | for any answered group the score is the mean of the corrected answers, times ten, rounded half up |
| Scorer.TraitScoreOf | lib/ai/personality-parser.ts:28-29 | the score is NaN exactly when an item of the trait is missing; with every item answered in 1..5 it is a number in 1.0..5.0 |
| Scorer.TraitScoreIsRoundedMean | lib/ai/personality-parser.ts:23-30 | for every trait and any answers to its items, the score is the rounded mean of the reverse-corrected answers |
| Scorer.CalcTraitScore | lib/ai/personality-parser.ts:23-30 | an unknown trait name is an error, and a known one gives that trait's score |
| Scorer.ScoresInRange | lib/ai/personality-parser.ts:28-29 | with all 60 answers in 1..5 every trait score is a number in 1.0..5.0 |
| Scorer.FallbackLevel | lib/ai/personality-parser.ts:90 | without a parsed level, HIGH exactly when the score is at least 3.0 |
| Scorer.TraitKeysAreKeys | lib/ai/personality-parser.ts:87 | the keys iterated are exactly the seven trait keys |
| Scorer.CalcAllTraitScores | lib/ai/personality-parser.ts:81-95 | one entry for each of the seven trait keys, each holding that trait's entry |
| Scorer.CalcAllTraitScoresEntry | lib/ai/personality-parser.ts:88-91 | an entry's score is the trait's score; its level is the parsed level if there is one, else the score-based fallback |
| Scorer.TraitEntry | lib/ai/personality-parser.ts:88-91 | one trait's entry: its score, and the parsed level when there is one, otherwise HIGH for a score of at least 3.0 and LOW else |
| PersonalityParser.DigitRun | lib/ai/personality-parser.ts:37 | the greedy `\d+` prefix: all digits, ending at a non-digit or at the end |
| PersonalityParser.SpaceRun | lib/ai/personality-parser.ts:37 | the greedy `\s*` prefix: all white space, ending at a non-space or at the end |
| PersonalityParser.ScoreMatchAt | lib/ai/personality-parser.ts:37 | a match at the start starts with the run of digits and a '.' after it; the item is parseInt of that leading run, and the score is the digit the match ends with |
| PersonalityParser.ScoreMatchAtShape | lib/ai/personality-parser.ts:37 | the item pattern matches at the start exactly when the text starts with digits, '.', white space, `SCORE:`, white space and a digit; the item is the digits' value, the score that digit, and the match ends right after it |
| PersonalityParser.ScoreMatchAtSingleSpaced | lib/ai/personality-parser.ts:37 | `N. SCORE: D` with single spaces matches with item N and score D, over exactly its characters |
| PersonalityParser.ScoreMatches | lib/ai/personality-parser.ts:41 | the global `exec` loop: every match in text order, resuming after a match and one character on after a miss |
| PersonalityParser.ScoreMatchesTake | lib/ai/personality-parser.ts:41 | the scan consumes a match at the current position whole and resumes after it |
| PersonalityParser.ScoreMatchesSkip | lib/ai/personality-parser.ts:41 | without a match at the current position the scan advances one character |
| PersonalityParser.CollectScores | lib/ai/personality-parser.ts:41-47 | an item is recorded exactly when some match for it is in range; every recorded item is 1..60 with score 1..5 |
| PersonalityParser.CollectScoresLastWins | lib/ai/personality-parser.ts:44-46 | the last accepted match for an item decides its score |
| PersonalityParser.Accepted | lib/ai/personality-parser.ts:44 | the range check: item in 1..60 and score in 1..5 |
| PersonalityParser.LabelAt | lib/ai/personality-parser.ts:56-66 | the trait whose label starts the text, and none when no label does |
| PersonalityParser.Label | lib/ai/personality-parser.ts:56-66 | the Japanese label of each trait, as the trait regex and its name map list them |
| PersonalityParser.LevelSearch | lib/ai/personality-parser.ts:56 | the lazy search for the nearest HIGH or LOW stays within the text and consumes at least the level word |
| PersonalityParser.LevelSearchEndsWithWord | lib/ai/personality-parser.ts:56 | the text the search consumes ends with the HIGH or LOW it reports |
| PersonalityParser.LevelSearchFirst | lib/ai/personality-parser.ts:56 | the level reported is the first HIGH or LOW before any line terminator; there is none exactly when no HIGH or LOW starts before the first line terminator |
| PersonalityParser.TraitMatchAt | lib/ai/personality-parser.ts:56 | a trait match at the start names the trait whose label is there and captures the level the lazy search finds after the label, ending where that search ends; there is no match exactly when no label starts the text or no level follows it on the line |
| PersonalityParser.TraitMatchesTake | lib/ai/personality-parser.ts:68 | the trait scan consumes a match whole |
| PersonalityParser.TraitMatchesSkip | lib/ai/personality-parser.ts:68 | where no label starts, the trait scan advances one character |
| PersonalityParser.TraitMatches | lib/ai/personality-parser.ts:68 | the trait `exec` loop: every trait match in text order, resuming after a match and one character on after a miss |
| PersonalityParser.CollectTraits | lib/ai/personality-parser.ts:68-73 | a trait key is recorded exactly when some match names that trait |
| PersonalityParser.CollectTraitsLastWins | lib/ai/personality-parser.ts:68-73 | the last match naming a trait decides its level |
| PersonalityParser.ParsePersonalityResponse | lib/ai/personality-parser.ts:35-76 | succeeds exactly when every item 1..60 was recorded; then the scores cover exactly the 60 items, all in 1..5, with the trait levels from the scan; the scores are exactly the map the item scan collects; otherwise it reports how many items that map holds |
| PersonalityParser.CompleteIffSixty | lib/ai/personality-parser.ts:49 | a set of item numbers within 1..60 has 60 members exactly when it holds all items, so the count check is the completeness check |
| ParserSample.DecimalRoundTrip | lib/ai/personality-parser.ts:42 | parseInt of the decimal rendering of a number gives the number back |
| ParserSample.ParseRoundTrip | lib/ai/personality-parser.ts:35-76 | any 60 answers written as numbered `N. SCORE: D` lines with a TRAITS block parse back to exactly those answers, and to the rows' levels |
| ParserSample.SampleParses | scripts/test-personality-parser.ts:96-111 | the test script's sample yields all 60 answers and the listed HIGH/LOW level of each trait |
| ParserSample.SampleTraitScore | scripts/test-personality-parser.ts:115-137 | the sample's trait scores are the ones the script expects: 3.4 for extraversion, 5.0 for honesty-humility, 2.2 for emotionality, 4.4 for curiosity (and the other three likewise) |
| ParserSample.SampleTraitTable | scripts/test-personality-parser.ts:115-144 | the sample's full trait table holds, for every trait, that score and the parsed level |
| ParserSample.InvalidInputRejected | scripts/test-personality-parser.ts:148-153 | "invalid input" is rejected |
| ModelKey.EffectiveKey | lib/ai/model.ts:5 | an unset or empty setting falls back to the default key |
| ModelKey.IndexOf | lib/ai/model.ts:6 | the first position of the character, or none when it is absent |
| ModelKey.ParseKey | lib/ai/model.ts:6-22 | malformed exactly when there is no colon; on success the key is the provider name, a colon and the model id |
| ModelKey.ParseKeyRoundTrip | lib/ai/model.ts:12-22 | every model's key parses back to that model, including ids that contain colons |
| ModelKey.ParseKeyErrors | lib/ai/model.ts:20-21 | a provider other than google and anthropic is rejected, naming that provider |
| ModelKey.DefaultKeyParses | lib/ai/model.ts:5 | the default key selects Google's gemini-2.5-flash-lite |
| ModelKey.GetModel | lib/ai/model.ts:4-23 | with no key or an empty key, the default Google model; a key without a colon is malformed, and a selected model is the one the key spells out |
| Calendar.NextMonth | lib/ai/analysis.ts:180-181 | the next month is valid and one index later, with December rolling over |
| Calendar.PrevMonth | lib/ai/analysis.ts:245-246 | the previous month is valid and one index earlier, with January rolling back |
| Calendar.NextPrevInverse | lib/ai/analysis.ts:180-181 | the two month steps undo each other |
| Calendar.StepsAreAddMonths | lib/ai/analysis.ts:180-181 | the next and previous month are the month index plus and minus one, the step the history window is built from |
| Calendar.BeforeIsIndexOrder | components/features/ai/month-navigator.tsx:32 | the (year, month) comparison is the order of month indices |
| Calendar.DayOfWeek | lib/ai/analysis.ts:186 | the weekday is 0..6 |
| Calendar.WeekStart | lib/ai/analysis.ts:185-187 | a Monday at most six days back; a Sunday maps to six days back |
| Calendar.WeekStartUnique | lib/ai/analysis.ts:185-187 | that Monday is the only Monday among the day and the six days before it |
| Calendar.WeekStartMs | lib/ai/analysis.ts:185-187 | midnight of the week's Monday is at most the instant and less than a week before it |
| MonthNavigator.HandlePrev | components/features/ai/month-navigator.tsx:18-24 | always moves exactly one month back |
| MonthNavigator.HandleNext | components/features/ai/month-navigator.tsx:26-41 | moves one month on exactly when the shown month is before the current one, and otherwise does nothing |
| MonthNavigator.NextNeverFuture | components/features/ai/month-navigator.tsx:31-34 | next never reaches a month after the current one |
| MonthNavigator.NavigationRoundTrip | components/features/ai/month-navigator.tsx:18-41 | prev undoes an allowed next; next undoes prev up to the current month |
| MonthNavigator.DisabledIffCurrent | components/features/ai/month-navigator.tsx:43-62 | up to the current month, next is refused exactly when the button is disabled |
| MonthNavigator.IsCurrentMonth | components/features/ai/month-navigator.tsx:44 | the shown month is the current one exactly when year and month both agree |
| DiagnosisQueries.TruncDiv | lib/actions/ai.ts:52 | the quotient rounded toward zero, as a bound on each side for either sign of the dividend |
| DiagnosisQueries.JsRem | lib/actions/ai.ts:52 | JavaScript's remainder: the dividend is the divisor times the truncated quotient plus it; it has the dividend's sign and is below the divisor in size |
| DiagnosisQueries.CeilDiv | lib/actions/ai.ts:51 | the least r with a <= b r |
| DiagnosisQueries.HistoryStartAsWritten | lib/actions/ai.ts:48-53 | a positive start month is kept in the current year; otherwise the month is wrapped into 1..12, congruent to the start month mod 12, and the year goes back ceil(abs(start) / 12) years |
| DiagnosisQueries.HistoryWindowAsWritten | lib/actions/ai.ts:60-65 | one queried month per requested month |
| DiagnosisQueries.HistoryWindowAsWrittenInRange | lib/actions/ai.ts:60-65 | for up to 13 months the single December wrap keeps every queried month valid |
| DiagnosisQueries.HistoryWindowAsWrittenAgrees | lib/actions/ai.ts:48-65 | for 1..13 months the code's window is the intended one exactly when the start month does not compute to 0 |
| DiagnosisQueries.HistoryWindowMayCounterexample | lib/actions/ai.ts:48-53 | for May 2025 and six months the code queries Dec 2025..May 2026 |
| DiagnosisQueries.HistoryWindowMayCorrected | lib/actions/ai.ts:35 | for May 2025 and six months the last six months are Dec 2024..May 2025 |
| DiagnosisQueries.HistoryWindow | lib/actions/ai.ts:32-35 | N valid months with consecutive indices that end at the current month |
| DiagnosisQueries.HistoryWindowConsecutive | lib/actions/ai.ts:32-35 | the window ends at the current month and each month is the next of the one before |
| DiagnosisQueries.HistoryRequest | lib/actions/ai.ts:35-65 | an error exactly when nobody is signed in; otherwise the user's id and the N months the code queries, valid for up to 13 months, and the last N months exactly when N is not the current month number plus one |
| DiagnosisQueries.CorrectedHistoryRequest | lib/actions/ai.ts:35-65 | with the start year fixed: an error exactly when nobody is signed in; otherwise N consecutive valid months ending at the current month |
| DiagnosisQueries.FirstFor | lib/actions/ai.ts:136-139 | the first row of a user, with no earlier row of that user; none exactly when the user has no row |
| DiagnosisQueries.LatestByUser | lib/actions/ai.ts:134-140 | a user is kept exactly when some row is theirs, and the kept row is their first row |
| DiagnosisQueries.LatestOfIsLatest | lib/actions/ai.ts:131-140 | on rows ordered latest first, the kept row is the user's latest diagnosis |
| DiagnosisQueries.GetAllTraineesLatestDiagnosis | lib/actions/ai.ts:106-148 | error exactly when nobody is signed in; no assignments give an empty list; otherwise one entry per assignment, in order, with that trainee's kept diagnosis or none |
| Analysis.SentimentValid | lib/ai/analysis.ts:20-27 | the sentiment schema: score in -1..1, each ratio in 0..1, at most five keywords of each kind |
| Analysis.SentimentIssues | lib/ai/analysis.ts:20-27 | no issues exactly when the sentiment fits the schema; the score and keyword-count issues are reported exactly when those bounds fail |
| Analysis.ParseSentiment | lib/ai/analysis.ts:20-27 | accepts exactly the values the schema allows, unchanged, and otherwise reports the failing fields |
| Analysis.SentimentBounds | lib/ai/analysis.ts:21-26 | the bounds are inclusive; a sixth keyword is rejected |
| Analysis.ParseCategory | lib/ai/analysis.ts:32 | accepts exactly the five category names |
| Analysis.PriorityValid | lib/ai/analysis.ts:34 | a priority is an integer in 1..5 |
| Analysis.CategoryRoundTrip | lib/ai/analysis.ts:32 | every category's name parses back to it |
| Analysis.ParseQuestion | lib/ai/analysis.ts:30-35 | accepts exactly a known category and an integer priority in 1..5, keeping the other fields |
| Analysis.ParseEach | lib/ai/analysis.ts:30-35 | the list is accepted exactly when each question is, element by element |
| Analysis.ParseQuestions | lib/ai/analysis.ts:29-36 | accepted exactly when there are five questions and each is valid |
| Analysis.RenderQuestion | lib/ai/analysis.ts:30-35 | a question is written with its category's name and its priority as a number |
| Analysis.QuestionsRoundTrip | lib/ai/analysis.ts:29-36 | five valid questions, rendered, parse back to themselves |
| Analysis.QuestionsRejected | lib/ai/analysis.ts:34-35 | four questions are rejected, and so is a fractional priority |
| Analysis.ReflectionTexts | lib/ai/analysis.ts:69-71 | one text per reflection, in order |
| Analysis.ActivityTexts | lib/ai/analysis.ts:67-72 | an activity's own text comes before its reflections' texts |
| Analysis.GoalTexts | lib/ai/analysis.ts:64-74 | a goal's own text comes before its activities' texts |
| Analysis.KeptTexts | lib/ai/analysis.ts:77 | only non-empty texts are kept; nothing is kept exactly when every text is missing or empty |
| Analysis.Join | lib/ai/analysis.ts:77 | joining no texts gives the empty string, and one text gives itself |
| Analysis.CollectText | lib/ai/analysis.ts:41-78 | no data gives the empty string; otherwise the corpus is empty exactly when no text is kept |
| Analysis.JoinEmpty | lib/ai/analysis.ts:77 | non-empty texts join to the empty string only when there are none |
| Analysis.SplitJoin | lib/ai/analysis.ts:77 | texts without the separator are recovered by splitting their join |
| Analysis.CollectTextLines | lib/ai/analysis.ts:62-77 | when no text contains a newline, the corpus's lines are exactly the kept texts in nesting order |
| Analysis.GoalsTextsAppend | lib/ai/analysis.ts:63-75 | collecting two goal lists is collecting each, in order |
| Analysis.ActivitiesTextsAppend | lib/ai/analysis.ts:66-73 | collecting two activity lists is collecting each, in order |
| Analysis.PushActivity | lib/ai/analysis.ts:67-72 | the loop over an activity pushes the activity's texts in order |
| Analysis.PushGoal | lib/ai/analysis.ts:64-74 | the loop over a goal pushes the goal's texts in order |
| Analysis.CollectTextLoop | lib/ai/analysis.ts:60-77 | the nested loops compute the recursive corpus definition |
| Analysis.Utf16Length | lib/ai/analysis.ts:232 | a string's UTF-16 length is between its length and twice it |
| Analysis.Utf16LengthAppend | lib/ai/analysis.ts:232 | the UTF-16 length of a concatenation is the sum of the parts' lengths |
| Analysis.Utf16LengthBmp | lib/ai/analysis.ts:232 | for text in the Basic Multilingual Plane the UTF-16 length is the character count |
| Analysis.CalcTrend | lib/ai/analysis.ts:122-131 | stable without a previous score; improving exactly above prev + 0.1, declining exactly below prev - 0.1, stable otherwise |
| Analysis.TrendAntisymmetric | lib/ai/analysis.ts:122-131 | swapping the two scores swaps improving and declining and keeps stable |
| Analysis.TrendThresholdIsStable | lib/ai/analysis.ts:128-129 | a difference of exactly 0.1 either way is stable |
| Analysis.TrendMonotone | lib/ai/analysis.ts:127-129 | a higher current score never turns improving into something else, nor a lower one declining |
| Batch.PrevScore | lib/ai/analysis.ts:245-258 | a previous score exists exactly when last month's row exists; a row without a sentiment reads as 0 |
| Batch.FreshlyAnalyzed | lib/ai/analysis.ts:216-224 | the trainee has a current-month row whose analysis time is at or after the start of this week |
| Batch.RunGenerators | lib/ai/analysis.ts:83-117 | results only when the model is available and all three generators return; the sentiment is the validated one, and the personality result has 60 raw scores and seven traits |
| Batch.RunGeneratorsOutcome | lib/ai/analysis.ts:237-242 | the three analyses succeed exactly when a model is configured, all three calls return, the sentiment is valid and the personality reply parses |
| Batch.Personality | lib/ai/analysis.ts:96-105 | a parsed answer gives 60 raw scores and seven traits |
| Batch.PersonalityOutcome | lib/ai/analysis.ts:96-105 | the personality step succeeds exactly when the reply parses; the raw scores are the parsed ones and the traits are scored from them with the parsed levels |
| Batch.GenerateQuestions | lib/ai/analysis.ts:136-160 | questions only when the model is available, and then exactly five |
| Batch.GenerateQuestionsOutcome | lib/ai/analysis.ts:136-160 | questions exactly when a model is configured, the call returns and every question parses; they are the parsed questions |
| Batch.ReplaceSuggestions | lib/ai/analysis.ts:300-316 | other diagnoses' suggestions are untouched; delete and insert together replace the list; a failed insert after a delete leaves none; an insert after a failed delete appends to the old list |
| Batch.NewDiagnosis | lib/ai/analysis.ts:261-283 | the upserted row carries the sentiment, the text length and the upsert time |
| Batch.VisitSubject | lib/ai/analysis.ts:214-322 | a skip changes nothing; processing needs the model; only the trainee's current-month row can change |
| Batch.Analyze | lib/ai/analysis.ts:237-322 | never a skip; either nothing is written or the new row is, and a processed trainee's row is always written |
| Batch.AnalyzeVerdict | lib/ai/analysis.ts:237-322 | a trainee is processed exactly when the analyses, the upsert and the suggestion generator all succeed |
| Batch.AnalyzeSuggestions | lib/ai/analysis.ts:300-322 | a processed trainee's suggestions are replaced by the generated questions; a failed one's are untouched |
| Batch.Record | lib/ai/analysis.ts:199-322 | exactly the counter of the visit's verdict goes up by one |
| Batch.Step | lib/ai/analysis.ts:214-322 | the loop body: visit one trainee against the current rows and suggestions and count the verdict |
| Batch.Loop | lib/ai/analysis.ts:203-323 | the loop: each trainee in order, returning the counts marked partial at the first one found over the 270-second budget |
| Batch.Visited | lib/ai/analysis.ts:203-212 | the trainees before the first one over the 270-second budget |
| Batch.RunMonthlyAnalysis | lib/ai/analysis.ts:172-326 | no trainees, or a failed trainee query, give zero counts and no writes; otherwise every trainee before the budget cut is counted once, and the result is partial exactly when the cut came before the end |
| Batch.LoopTally | lib/ai/analysis.ts:199-325 | each visited trainee adds exactly one to the tally; the run is partial exactly when it stopped early |
| Batch.RunTally | lib/ai/analysis.ts:199-325 | a complete run counts every trainee exactly once; a partial one counts fewer |
| Batch.LoopPrefix | lib/ai/analysis.ts:204-212 | a run cut short equals the run over the trainees before the cut, marked partial |
| Batch.LoopFrame | lib/ai/analysis.ts:203-323 | rows of other months, and rows of users not in the run, are never touched |
| Batch.SkipFresh | lib/ai/analysis.ts:215-227 | a trainee analysed this week is skipped and nothing is written |
| Batch.SkipShort | lib/ai/analysis.ts:229-235 | a trainee not analysed this week is skipped exactly when the corpus is under 50 UTF-16 units |
| Batch.LengthThreshold | lib/ai/analysis.ts:232 | a 49-character corpus is skipped and a 50-character one is not |
| Batch.SkipIgnoresGenerators | lib/ai/analysis.ts:215-235 | a skipped trainee's outcome does not depend on any generator |
| Batch.UpsertFailure | lib/ai/analysis.ts:285-289 | an upsert error counts as failed and writes nothing |
| Batch.QuestionsFailureKeepsDiagnosis | lib/ai/analysis.ts:292-298 | a suggestion generator that throws after the upsert counts as failed, but the new row stays written |
| Batch.ProcessedWhenAllSucceed | lib/ai/analysis.ts:214-318 | a trainee not analysed this week, with at least 50 UTF-16 units of text, whose analyses, upsert and suggestion generator succeed is processed, with the row written and the suggestions replaced |
| Batch.ProcessedDiagnosis | lib/ai/analysis.ts:255-289 | a processed trainee's row holds a valid sentiment, the trend against last month, 60 raw scores, seven traits, the text length and the upsert time |
| Batch.SuggestionWritesUnchecked | lib/ai/analysis.ts:301-318 | the verdict and the diagnosis rows do not depend on whether the suggestion delete and insert took effect |
| Batch.RerunSkips | lib/ai/analysis.ts:215-227 | a trainee processed this week is skipped when visited again |
| Batch.BadModelKeyWritesNothing | lib/ai/model.ts:8-22 | with a malformed or unsupported model key nobody is processed and no row is written |
| Batch.RunBatch | lib/ai/analysis.ts:172-326 | the loop with its early return computes the fold |
| Batch.RunLoop | lib/ai/analysis.ts:199-325 | the loop over the trainees, returning early and marked partial at the budget cut, computes the fold |

## Left out

- Floating point: sentiment values and the trend difference are exact reals
  (`real`). `0.1` is exact. A difference that lands on the threshold only
  after binary rounding can classify differently in the source.
- Scorer.RoundTenths: is the exact rounding of the exact mean. The source
  divides and multiplies in binary floating point before `Math.round`, which
  can differ by one tenth on a half-way mean.
- Time zones and the clock: the current month, the Monday of the week and
  the upsert time are given as numbers. The `Date` local-time conversions are
  not modelled.
- Date strings: building the `YYYY-MM-01T00:00:00Z` range strings and
  comparing the stored `analyzed_at` string with the week start. The model
  compares instants.
- Prompt texts, `String.replace` of their placeholders, and the traits
  summary string built for the suggestion prompt. They only shape what the
  model is asked.
- The language-model SDK calls: each generator's outcome (a value or a
  throw) is an input of the trainee's record.
- `getAdminClient`'s missing-secret error: it throws before the batch starts
  and is not part of any trainee's outcome.
- Database query errors other than an empty result. The history and
  latest-diagnosis queries' own filtering and ordering are inputs.
  `LatestOfIsLatest` states what the ordering buys.
- `console.error` logging, React rendering and `router.push` in the month
  navigator.
- The other actions of `lib/actions/ai.ts` (`getMyDiagnosis`,
  `getTraineeDiagnosis`, `getQuestionSuggests`): each is a single
  authenticated row read with no logic of its own.
- The cron route that calls the batch and the reflection-support route: they
  only wrap calls into the code modelled here.
- DiagnosisQueries.HistoryWindowAsWritten: compared with the intended window
  only for 1..13 months. Past that the code's single December wrap yields
  months above 12; HistoryWindowAsWrittenInRange states where it holds.

## Findings

| source | as written | input that shows it | evidently intended | confidence | as-written member | corrected member |
|---|---|---|---|---|---|---|
| lib/actions/ai.ts:48-53 | the start year goes back `ceil(abs(start) / 12)` years, which is 0 when the start month computes to exactly 0 | May 2025 with the default 6 months: start month 0 becomes December, year unchanged, so the query covers Dec 2025..May 2026 | the last N months ending at the current month: Dec 2024..May 2025 | not executed | DiagnosisQueries.HistoryWindowAsWritten | DiagnosisQueries.CorrectedHistoryRequest |

The as-written half is stated by `HistoryWindowMayCounterexample` and
`HistoryWindowAsWrittenAgrees`: for 1..13 months the two windows differ
exactly when `months == current month + 1`. `HistoryRequest` queries the
code's window, as written. `CorrectedHistoryRequest` queries the corrected
window `HistoryWindow`, which is consecutive and ends at the current month
(`HistoryWindowConsecutive`, and `HistoryWindowMayCorrected` for the May
case).
