# Intern learning tracker: verified model of the dashboard logic

This project models the computations of the intern-tracking dashboards and
proves what they promise. The intern side covers:

- the quick `Skill:Level` self-assessment parser;
- the learning-session life cycle (task, resources, timer, quiz);
- quiz scoring and the session log built from it.

The admin side covers:

- the track benchmark parser and its formatter, which round-trip;
- the cohort counters and average;
- the leaderboard, the per-track table and the daily score trend;
- the text of a track card.

The chart helpers cover the score bands of the performance pies, the
last-k windows and the skill-gap split.

Python's own operations are modelled explicitly:

- `str.strip`, over the ASCII characters `str.isspace` accepts (space, tab, line and page breaks, U+001C to U+001F);
- `str.split` (empty pieces kept);
- `join` and `replace`;
- `int(text)`, as an optional sign and decimal digits, with `None` for `ValueError`;
- `str(n)`;
- `//` and `%` by a positive constant, which equal Dafny's Euclidean operators;
- `int(x)` on a float, which truncates toward zero.

Modules:

- `Wrappers`: the `Option` type.
- `Lists`: `FlatMap`, which models a list built by appending in a loop, and its lemmas; repeat-free lists.
- `Text`: Python string operations.
- `Numerals`: `str(int)` and `int(str)`.
- `Skills`: both skill parsers and the benchmark formatter.
- `Quiz`: scoring, percentage, labels, status, duration, timer split.
- `Session`: the `LearningSession` class, whose fields are the session-state entries and whose methods are the button handlers.
- `Records`: the stored records and the sums and means over them.
- `Charts`: bands, windows and gap values.
- `Order`: Python string order and `sorted`.
- `Trends`: the daily trend.
- `Cohort`: counters, cohort average, leaderboard, track table.
- `Catalog`: description truncation and the skill summary.

Where the specification and the code disagree, the model follows the code:

- The leaderboard is ranked by each intern's mean logged score, with no
  tie-break. The specification describes ranking by the stored
  `overallScore` with ties broken by session count.
- The performance pie drops scores of 0 as well as missing ones. The
  specification excludes only missing scores. See "Findings".

## Model

| member | source | states |
|---|---|---|
| Text.Strip | intern_dashboard.py:488 | `item.strip()` leaves no whitespace at either end |
| Text.StripSlice | admin_dashboard.py:163 | stripping removes exactly the whitespace runs at both ends, keeping the inner text intact |
| Text.StripEmptyIffBlank | admin_dashboard.py:163-164 | the stripped item is empty exactly when the piece is empty or whitespace only |
| Text.StripKeepsVisible | intern_dashboard.py:488-489 | stripping never removes a non-space character such as `:` |
| Text.Split | intern_dashboard.py:487 | `split(c)` yields at least one piece and no piece holds `c` |
| Text.SplitLength | intern_dashboard.py:487 | `split(c)` yields one more piece than there are `c` |
| Text.JoinSplit | intern_dashboard.py:487 | joining the pieces with `c` gives back the text |
| Text.SplitJoin | admin_dashboard.py:140 | splitting a join of `c`-free items gives back the items |
| Text.SplitAtFirst | intern_dashboard.py:490 | the first piece is the text before the first separator |
| Text.Replace | admin_dashboard.py:161 | `replace` keeps the length, turns every `a` into `b`, keeps every other character, and leaves no `a` when `a != b` |
| Text.ReplaceAbsent | admin_dashboard.py:161 | replacing an absent character changes nothing |
| Numerals.IntToString | admin_dashboard.py:140 | `str(n)` is a minus sign exactly for negative `n`, then decimal digits |
| Numerals.ParseInt | intern_dashboard.py:493-498 | `int(text)` succeeds exactly on an optional sign followed by digits |
| Numerals.ParseIntToString | admin_dashboard.py:140 | reading `str(n)` back gives `n` |
| Numerals.IntToStringInjective | intern_dashboard.py:356-358 | distinct integers are written differently |
| Skills.QuickInputSkills | intern_dashboard.py:484-508 | empty input keeps the slider assessment; otherwise exactly one entry per comma piece (commas + 1), entry k read from piece k |
| Skills.QuickSkillBlank | intern_dashboard.py:487-488 | an empty or whitespace-only piece becomes a nameless skill at level 3 |
| Skills.QuickSkillPlain | intern_dashboard.py:503-507 | a piece without `:` is its stripped text at level 3 |
| Skills.QuickSkillColon | intern_dashboard.py:489-502 | name is the stripped text before the first `:`; level is `int` of the stripped text between the first and second `:`, else 3; no clamping |
| Skills.ParseBenchmarks | admin_dashboard.py:159-183 | the form's loop produces the benchmarks of the newline-to-comma pieces, in order |
| Skills.BenchmarkOfAsQuickSkill | admin_dashboard.py:162-183 | a blank piece yields no benchmark; any other piece is read exactly as the quick input reads it |
| Skills.BenchmarksBound | admin_dashboard.py:164 | never more benchmarks than pieces; only blank pieces give none |
| Skills.FormatItemPlain | admin_dashboard.py:140 | a formatted `name:minLevel` item is stripped, has no `,` or newline, and reads back as its benchmark |
| Skills.FormatBenchmarks | admin_dashboard.py:140 | the pre-filled text is empty exactly when the track has no benchmarks |
| Skills.ParseFormatRoundTrip | admin_dashboard.py:140 | re-parsing the pre-filled text gives back the benchmarks when names are stripped and free of `,` `:` newline (empty names included) |
| Quiz.ScoreQuiz | intern_dashboard.py:338-352 | `score == len(correct_answers)`; both lists ascending and disjoint; correct = answered with the right option, incorrect = answered otherwise, both below the question count; `score + len(incorrect) <= total` |
| Quiz.Percentage | intern_dashboard.py:353 | 0 for an empty quiz; otherwise the percentage times the question count is 100 times the score |
| Quiz.PercentageBounds | intern_dashboard.py:353 | the percentage lies in [0,100]; it is 100 exactly for a full score and 0 exactly for no correct answer |
| Quiz.Highlights | intern_dashboard.py:355-358 | at most two labels, the k-th being `Q{i+1}` of the k-th index |
| Quiz.LabelInjective | intern_dashboard.py:356-358 | different questions have different labels |
| Quiz.HighlightsDisjoint | intern_dashboard.py:355-358 | no label is both a strength and a weakness |
| Quiz.StatusOf | intern_dashboard.py:382 | COMPLETED exactly when the raw correct count is at least 6 |
| Quiz.StatusText | intern_dashboard.py:382 | the log's text is `COMPLETED` exactly for a completed session and `NEEDS_REVIEW` exactly for one needing review |
| Quiz.ShortQuizNeedsReview | intern_dashboard.py:382 | a quiz of fewer than six questions always logs NEEDS_REVIEW |
| Quiz.Truncate | intern_dashboard.py:360 | `int(x)` on a float truncates toward zero |
| Quiz.Duration | intern_dashboard.py:360 | 0 without a start time (None or 0); otherwise the floor of the truncated elapsed seconds over 60 |
| Quiz.DurationMinutes | intern_dashboard.py:360 | for a past start, the duration is the number of whole minutes elapsed |
| Quiz.TimerSplit | intern_dashboard.py:241-244 | `hours*3600 + minutes*60 + seconds == elapsed` with minutes and seconds in [0,60) |
| Quiz.TimerSplitUnique | intern_dashboard.py:241-244 | no other such triple writes the same elapsed time |
| Quiz.TimerAgreesWithDuration | intern_dashboard.py:241-244 | the timer's hours and minutes are the logged duration in minutes |
| Session.LearningSession.constructor | intern_dashboard.py:184-192 | every session field starts at its initial value |
| Session.LearningSession.AddResource | intern_dashboard.py:221-224 | appends only a non-empty, unlisted URL and only when not clocked in; the list stays repeat-free |
| Session.LearningSession.DeleteResource | intern_dashboard.py:233-236 | pops exactly index i, only when not clocked in |
| Session.LearningSession.Start | intern_dashboard.py:266-274 | starts exactly when the task is non-empty and a resource is listed, recording the start time and task |
| Session.LearningSession.EndSession | intern_dashboard.py:254-264 | under a non-empty task, installs the quiz with no answers, opens it and stops the clock; otherwise nothing changes |
| Session.LearningSession.SelectAnswer | intern_dashboard.py:334-335 | records the chosen option index for the question |
| Session.LearningSession.CancelQuiz | intern_dashboard.py:308-312 | clears only `show_quiz`, `quiz_data` and `quiz_answers` |
| Session.LearningSession.Submit | intern_dashboard.py:337-423 | the log holds the scored lists, percentage, labels, status and duration of the pre-submit state; every field but the feedback text is reset |
| Records.SessionsOfMembers | admin_dashboard.py:225 | an intern's sessions are exactly the stored sessions with that intern's id, each as many times as it is stored |
| Records.MeanWithin | admin_dashboard.py:490 | a mean of scores lies within any bounds of the scores |
| Charts.BandPartition | utils.py:43-46 | every score meets exactly one band condition |
| Charts.BandValues | utils.py:48-49 | the four values are the band counts in the order Excellent, Good, Average, Poor |
| Charts.BandCountsSum | utils.py:43-46 | the four band counts sum to the number of scores |
| Charts.Truthy | utils.py:41 | the kept scores are the non-zero ones, each as many times as it occurs (the multiset of scores with its zeros removed) |
| Charts.TruthyBands | utils.py:41-49 | dropping the zeros leaves the Excellent, Good and Average counts unchanged and lowers Poor by the number of zeros |
| Charts.TruthyLength | utils.py:41 | as many scores are kept as are non-zero |
| Charts.PerformancePie | utils.py:37-41 | nothing exactly for an empty history |
| Charts.PerformancePieTotal | utils.py:41-49 | the pie's values sum to the number of non-zero scores |
| Charts.LastK | utils.py:77-78 | `xs[-k:]` is the last min(k, n) elements, in order |
| Charts.VelocityChart | utils.py:73-78 | nothing exactly for an empty history |
| Charts.VelocityChartWindow | utils.py:77-78 | dates and scores are the last min(15, n) sessions, aligned; band values sum to the window size, zeros included |
| Charts.AnalysisWindows | utils.py:150-155 | nothing exactly for an empty history |
| Charts.AnalysisWindowsAligned | utils.py:153-155 | dates, scores and durations are the last min(10, n) sessions, aligned index by index |
| Charts.GapValues | utils.py:10 | the gap is never negative, is 0 from a similarity of 100 up, and the two values sum to 100 up to that point |
| Charts.ZeroScoreMissingFromPie | utils.py:41 | a session scored 0 is in no band of the pie as written, but is Poor in the velocity chart |
| Charts.PerformancePieAllScores | utils.py:41-49 | counting every score, the pie's values sum to the number of sessions |
| Charts.PieDropsZeros | utils.py:41-49 | for every history, the pie as written equals the corrected pie except that its Poor value is short by the number of sessions scored 0 |
| Order.LessEqTotal | admin_dashboard.py:460 | Python string order is total |
| Order.LessEqTrans | admin_dashboard.py:460 | Python string order is transitive |
| Order.Sort | admin_dashboard.py:460 | `sorted` returns the same strings in ascending order |
| Order.SortedUnique | admin_dashboard.py:460 | there is only one ascending arrangement of a list of strings |
| Trends.FirstOnShape | admin_dashboard.py:456-458 | the first index of a date holds that date, and no earlier session does |
| Trends.GroupByDate | admin_dashboard.py:454-458 | the dictionary has one key per logged date, without repeats, keys ordered by their first session's index, each mapped to that date's scores in log order |
| Trends.DailyTrend | admin_dashboard.py:453-461 | nothing without logs; otherwise the last 30 of the sorted dates, each with the mean of its scores |
| Trends.TrendDates | admin_dashboard.py:460 | the shown dates are distinct, ascending, min(30, #dates) of them, and no date left out is later than a shown one |
| Cohort.Onboarded | admin_dashboard.py:222 | at most the number of interns; all of them exactly when every intern is onboarded, 0 exactly when none is |
| Cohort.Active | admin_dashboard.py:225 | at most the number of interns; all of them exactly when every intern has a session, 0 exactly when none has |
| Cohort.LeaderRows | admin_dashboard.py:486-498 | the loop makes the rows of the interns with sessions, in intern order |
| Cohort.RowsOfActive | admin_dashboard.py:489 | exactly the active interns get a row, each with at least one session |
| Cohort.SortDescending | admin_dashboard.py:502 | the same rows, by descending average score |
| Cohort.Leaderboard | admin_dashboard.py:502 | min(10, n) rows, a sub-multiset of the input (no row shown more often than it occurs), descending by average |
| Cohort.LeaderboardKeepsBest | admin_dashboard.py:502 | a row left off has no better average than any row shown |
| Cohort.CohortAverage | admin_dashboard.py:228-235 | "N/A" exactly when no intern is active; otherwise the mean of the active interns' mean scores |
| Cohort.CohortAverageWithin | admin_dashboard.py:228-235 | with scores in [0,10], the cohort average is in [0,10] |
| Cohort.AverageMatch | admin_dashboard.py:432-437 | the loop computes the mean similarity of those interns that have one, or 0 |
| Cohort.MatchAverageWithin | admin_dashboard.py:432-442 | with similarities in [0,100], the average match is in [0,100] |
| Cohort.TrackTable | admin_dashboard.py:428-443 | the loop makes one row per job with an assigned intern, in job order |
| Cohort.TrackRowsShape | admin_dashboard.py:430-431 | as many rows as jobs with interns, each counting at least one |
| Cohort.MembersCount | admin_dashboard.py:430 | a track's count is the number of interns assigned to it |
| Catalog.TruncateDescription | admin_dashboard.py:74 | a description over 80 characters becomes its first 80 plus `...`; otherwise unchanged |
| Catalog.TruncateIdempotent | admin_dashboard.py:74 | shortening a shortened description changes nothing |
| Catalog.Chips | admin_dashboard.py:77 | the chips of the first min(3, n) skills, in order |
| Catalog.SkillsText | admin_dashboard.py:77-78 | the chips line is empty exactly when the track has no skills |
| Catalog.SkillsTextChips | admin_dashboard.py:77 | when no shown name holds a backtick, the line holds two backticks per chip, one chip per shown skill |
| Catalog.MoreCaption | admin_dashboard.py:79-80 | a caption exactly when there are more than 3 skills |
| Catalog.CaptionCountsRest | admin_dashboard.py:79-80 | the caption's number is the count of skills not shown |

## Left out

- Storage, SQL and id generation are not part of this model. Session logs, interns and jobs are inputs.
- Windows are "the last k of the given sequence". The storage's ordering, newest first, is not modelled.
- Missing (null) scores are not modelled. The only writer, quiz submission, always stores an integer.
- The AI service's quiz generation, feedback text, skill-gap analysis and performance metrics are parameters or absent: it is a foreign, non-deterministic service.
- The intern id, `date.today()` and the `time_in`/`time_out` strings of the session log are left out, because they come from the clock. `now` and the start time are parameters.
- The `polyfit` trend line is left out: it is floating-point regression.
- Plotly figures, Streamlit rendering, `time.sleep` and reruns are left out: they are presentation only.
- Session.LearningSession.SelectAnswer: the radio widget's mapping from option text to index (`options.index`) is not modelled. The handler receives the index.
- Session.LearningSession.EndSession and Start: the task text is the text area's value, passed in as `taskInput`.
- Cohort.Leaderboard: the "Track" column is left out, because it is a database lookup by job id. `round(x, 1)` of the average and of the total hours is also left out. The rows are ordered by the exact mean. Rounding is monotone, so this order is also descending by the rounded value. The tie order of the unstable pandas sort is not fixed; the model uses insertion order.
- Cohort.CohortAverage: the `:.1f` formatting is left out. The source sums only non-zero scores; with integer scores that equals the plain sum, which the model uses.
- Charts.GapValues: similarity is a real, and Python's int/float mix of `max(0, …)` is not distinguished.
- Text.Strip: whitespace is the ASCII set `str.isspace` accepts, U+001C to U+001F included. Python's non-ASCII whitespace (such as U+0085 and U+00A0) is not modelled.
- Numerals.ParseInt: CPython's acceptance of `_` separators, surrounding whitespace and non-ASCII digits is not modelled. The only text it parses is already stripped.
- Catalog.Chips: the Markdown rendering of the chips line is not modelled.

## Findings

| source | as written | input that shows it | evidently intended | confidence | as-written member | corrected member |
|---|---|---|---|---|---|---|
| utils.py:41 | `if entry['score']` drops every falsy score, including a real score of 0 | one session scored 0: the pie shows `[0, 0, 0, 0]`, while the velocity chart shows it as Poor | only missing scores are skipped, and a 0 falls in the Poor (<4) band | medium, not executed | Charts.ZeroScoreMissingFromPie | Charts.PerformancePieAllScores |
