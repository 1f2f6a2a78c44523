# TaskAgent priority inference and due-date handling, in Dafny

TaskAgent is a task-management backend. A language model turns a free-text
task into JSON with a name, a due date, a priority and a category. The backend
post-processes that JSON, can infer a priority from the text with a weighted
rule table, and stores the task. This project models the parts of that path
that make decisions:

- `api/utils/constants.py`: the `Priority` enum, the weighted pattern table
  built by `PriorityInference.__init__`, `infer_priority` (the due-date rule,
  the pattern scoring loops, the current-priority bonus and the first-maximum
  selection) and `explain_priority`.
- `api/utils/postprocess.py`: `get_holiday_date`, `correct_due_date` and
  `process_parsed_task`.
- `api/database.py`: the checks `store_task` makes before it builds a row
  (lines 53-71): the required keys and the coercion of `due_date`.

Layout, one module per file:

| file | module | contents |
|---|---|---|
| `wrappers.dfy` | `Wrappers` | `Option` and `Result` |
| `text.dfy` | `Text` | ASCII case folding, ASCII digits, `str(n)`, substring search |
| `calendar.dfy` | `Calendar` | `datetime.date` validity, `toordinal` day numbers, `strftime("%Y-%m-%d")`, `strptime(s, "%Y-%m-%d")` |
| `patterns.dfy` | `Patterns` | the table's regular expressions and `due.*?(\d{4}-\d{2}-\d{2})` as leftmost-match scanners |
| `priority.dfy` | `PriorityInference` | the table, the functional specification `Infer`, and the imperative `InferPriority` proved to compute it |
| `priority_properties.dfy` | `PriorityProperties` | what `infer_priority` promises, proved about `Infer` |
| `explain.dfy` | `PriorityExplanation` | `explain_priority` as a method, proved against the line layout it produces |
| `postprocess.dfy` | `Postprocess` | holiday lookup, due-date correction, post-processing of the decoded task |
| `database.dfy` | `Database` | `store_task`'s validation and due-date coercion |

The source mutates dictionaries step by step, and the model keeps that shape.
`InferPriority`, `ExplainPriority`, `GetHolidayDate`, `ProcessParsedTask` and
`StoreTask` are methods; the first three loop, the last two assign. Four are
proved against a specification function: `InferPriority` against `Infer`,
`ExplainPriority` against `ExplanationLines`/`Join`, `ProcessParsedTask`
against `CorrectDueDate` and `StoreTask` against `StringDueDate`. The
promised properties are then lemmas about those functions.
`GetHolidayDate`'s ensures states the first match directly.

Modelling choices:

- The score and match dictionaries have exactly the keys "high", "medium" and
  "low", in that insertion order. They are modelled as the record
  `PerTier(high, medium, low)`, read with `Get` and updated with `Set`. The
  record's field order is the dictionary order that `max` and
  `explain_priority` rely on.
- Each case-insensitive regular expression of the table becomes a list of
  lower-case literal alternatives, in the order Python's engine tries them.
  For example, `immediate(ly)?` becomes ["immediately", "immediate"].
  `within \d+ hours?` has its own scanner. `re.search` is the leftmost match
  (`Patterns.SearchLeftmost`), and `found.group()` is the text of the first
  alternative that matches there (`Patterns.LiteralAtFirst`).
- `strptime(s, "%Y-%m-%d")` follows CPython's directive patterns:
  - the year is exactly four digits;
  - the month is `1[0-2]|0[1-9]|[1-9]`;
  - the day is `3[01]|[12]\d|0[1-9]|[1-9]| [1-9]`;
  - the whole string is consumed, and the date must exist in years 1-9999.
  
  So "2024-1-5" parses and "2023-02-30" does not.
- The clock (`datetime.now()`), the `holidays` package and `json.loads` are
  replaced by parameters:
  - today's date (`today: Date`) or the current year (`currentYear`);
  - the holiday table as a sequence of (date, name) pairs in the package's
    iteration order;
  - the decoder's verdict as `Option<Json>`, with `None` for
    `JSONDecodeError`.

Behaviour of the code that the model keeps as written:

- `get_holiday_date` looks only at the current year's holidays.
- `correct_due_date` does not resolve weekday names.
- The bonus entry reads "Considering existing priority", with a capital C.
- `store_task` requires the keys "name", "priority" and "category". It does
  not check a confidence score.

## Model

| member | source | states |
|---|---|---|
| `PriorityInference.TierKey` | api/utils/constants.py:130-134 | the board keys are the lower-cased enum values ("high" for `Priority.HIGH`, ...) |
| `PriorityInference.TableShape` | api/utils/constants.py:39-121 | the table has 4/3/2 groups weighted 10, 8, 7, 6 / 5, 4, 3 / 2, 1, every weight is positive, and the most each tier's table can give is 150/54/15 points |
| `PriorityInference.CurrentTier` | api/utils/constants.py:171 | a current priority names a tier exactly when its lower-case form is "high", "medium" or "low", and then it is that tier's board key |
| `PriorityInference.MaxScore` | api/utils/constants.py:176 | `max(scores.values())`: no score exceeds it, and some tier has it |
| `PriorityInference.ArgMax` | api/utils/constants.py:180 | `max(scores.items(), key=...)` returns a tier with the largest score that strictly outscores every tier before it in board order (first maximum) |
| `PriorityInference.Select` | api/utils/constants.py:176-180 | Low when the largest score is 0; otherwise a tier with the largest score that strictly beats every earlier tier |
| `PriorityInference.ScoreIndicator` | api/utils/constants.py:165-168 | the pattern loop adds the group's weight once per matching pattern and appends "Matched: <text>" per match, in pattern order |
| `PriorityInference.ScoreIndicators` | api/utils/constants.py:164-168 | the group loop adds the whole group list's score and match entries to the tier, in table order |
| `PriorityInference.ApplyPatterns` | api/utils/constants.py:159-168 | the tier loop adds each tier's pattern score and trace to that tier and to no other |
| `PriorityInference.ApplyDueDateRule` | api/utils/constants.py:130-156 | fresh boards, then the due-date rule: high +8 "Due within 24 hours" at most one day ahead, else medium +5 "Due within week" at most seven days ahead; an unparseable date is ignored |
| `PriorityInference.ApplyCurrentPriority` | api/utils/constants.py:170-173 | a recognised current priority adds 3 and "Considering existing priority" to its tier; any other string changes nothing |
| `PriorityInference.InferPriority` | api/utils/constants.py:123-189 | the imperative procedure returns exactly `Infer`: the boards, the first-maximum winner (Low when all are 0), `final_score` and the winner's match list |
| `PriorityProperties.HitsScoreCounts` | api/utils/constants.py:165-167 | a group's points are its weight times the number of its patterns that match |
| `PriorityProperties.HitsBounds` | api/utils/constants.py:165-168 | a group gives between 0 and weight × size points, and at least one point per match entry |
| `PriorityProperties.IndicatorsBounds` | api/utils/constants.py:164-168 | a list of groups gives between 0 and its capacity, and at least one point per match entry |
| `PriorityProperties.PatternScoreBounds` | api/utils/constants.py:39-121 | the table alone gives high at most 150, medium 54 and low 15 points, never fewer points than match entries |
| `PriorityProperties.ScoreBounds` | api/utils/constants.py:130-173 | every final score is non-negative, at most 161/62/18, and at least the length of the tier's match list |
| `PriorityProperties.HitsScoreTwo` | api/utils/constants.py:165-167 | two distinct matching patterns of a group give at least twice its weight (no early exit) |
| `PriorityProperties.HitsAtLeast` | api/utils/constants.py:165-168 | two distinct matching patterns leave two match entries |
| `PriorityProperties.HitsAtLeastOne` | api/utils/constants.py:165-168 | one matching pattern leaves a match entry |
| `PriorityProperties.IndicatorsScoreAtLeast` | api/utils/constants.py:164-167 | a tier scores at least what any one of its groups gives |
| `PriorityProperties.IndicatorsNonNegative` | api/utils/constants.py:164-167 | a list of groups never gives a negative score |
| `PriorityProperties.LiteralFound` | api/utils/constants.py:32 | a literal pattern compiled with IGNORECASE finds a match exactly when the lower-cased text contains it |
| `PriorityProperties.UrgentAsap` | api/utils/constants.py:41-48 | a description containing both "urgent" and "asap", in any case, scores at least 20 for high |
| `PriorityProperties.NoDueNoDateRule` | api/utils/constants.py:143 | the date pattern is case-sensitive: without a lower-case "due" the rule gives nothing |
| `PriorityProperties.DateRuleByDistance` | api/utils/constants.py:143-154 | for a found date: high exactly when it is at most one day ahead (past dates included), medium exactly when two to seven days ahead, nothing exactly when later |
| `PriorityProperties.DueTomorrow` | api/utils/constants.py:147-151 | a task due tomorrow gets 8 points and "Due within 24 hours" for high and nothing for medium |
| `PriorityProperties.UnparseableDueIgnored` | api/utils/constants.py:145-156 | a found date that `strptime` rejects gives no tier anything |
| `PriorityProperties.UnknownIsNoTier` | api/utils/constants.py:123 | the default current priority "Unknown" names no tier |
| `PriorityProperties.TierBonus` | api/utils/constants.py:170-173 | tier by tier, the current priority contributes exactly its bonus points and entry over the result for "Unknown" |
| `PriorityProperties.UnrecognisedCurrentIgnored` | api/utils/constants.py:170-173 | a current priority that is not high/medium/low in any case gives the same result as "Unknown" |
| `PriorityProperties.RecognisedCurrentBonus` | api/utils/constants.py:171-173 | a recognised current priority raises its own tier by 3, appends its entry there, and changes no other tier |
| `PriorityProperties.BonusWinner` | api/utils/constants.py:176-180 | 3 more points for one tier of a non-negative board leave the winner unchanged or make that tier the winner |
| `PriorityProperties.CurrentPriorityWinner` | api/utils/constants.py:170-180 | with a recognised current priority p, the winner is the winner without it, or p |
| `PriorityProperties.InferOutcome` | api/utils/constants.py:175-189 | the result is never Unknown; `final_score` is the largest score and the winner's; `decision_factors` is the winner's list; a non-zero winner beats every earlier tier; all-zero boards give Low with no factors |
| `Patterns.LiteralAtFirst` | api/utils/constants.py:46 | at one position the alternatives are tried in order, and the matched text is the first matching alternative's |
| `Patterns.WithinAt` | api/utils/constants.py:54 | a `within \d+ hours?` match starts with "within ", has at least 13 characters, and is the text at its position |
| `Patterns.WithinAtMatches` | api/utils/constants.py:54 | `within \d+ hours?` matches at a position exactly when "within ", one or more digits and " hour" follow there (any ASCII case); the match ends after " hour" and takes a following "s" exactly when one is there |
| `Patterns.SearchLeftmost` | api/utils/constants.py:166 | `search` finds a match exactly when one exists, and reports the leftmost |
| `Patterns.SearchLiteral` | api/utils/constants.py:32 | a one-literal pattern is found exactly when the literal occurs somewhere, ignoring ASCII case |
| `Patterns.DueDateSearchLeftmost` | api/utils/constants.py:143 | group 1 is the first date after the leftmost "due" that a date follows on the same line; no "due", no date |
| `PriorityExplanation.TierTitle` | api/utils/constants.py:204 | `level.title()` of a board key is the tier's enum value, and lower-cases back to the key |
| `PriorityExplanation.Join` | api/utils/constants.py:206 | the joined text starts with the first line |
| `PriorityExplanation.AppendFactors` | api/utils/constants.py:197-200 | the "Key factors" heading and one "- <factor>" line per factor, only when factors exist |
| `PriorityExplanation.AppendScores` | api/utils/constants.py:202-204 | the "Scores" heading and one line per tier in board order |
| `PriorityExplanation.ExplainPriority` | api/utils/constants.py:191-206 | the text is the header, factors and scores of `Infer` with current priority "Unknown", joined with newlines |
| `Text.PrefixedAt` | api/utils/constants.py:199-200 | the k-th line is the prefix followed by the k-th item, as for "- <factor>" here and "Matched: <text>" at line 168 |
| `PriorityExplanation.ScoreLineReadsBack` | api/utils/constants.py:204 | a score line names the tier by its enum value and its digits read back as the score |
| `PriorityExplanation.BoardScoreLines` | api/utils/constants.py:203-204 | the score lines list high, medium and low, in that order |
| `PriorityExplanation.ExplanationWithoutFactors` | api/utils/constants.py:195-204 | with no decision factors: the header, then the score section, with no "Key factors" heading |
| `PriorityExplanation.ExplanationWithFactors` | api/utils/constants.py:195-204 | with factors: the header, the heading, one line per factor in order, then the score section |
| `PriorityExplanation.ExplanationHeader` | api/utils/constants.py:195 | the explanation starts with "Priority determined as <priority>:" |
| `Text.NatStringValue` | api/utils/constants.py:204 | a printed score's digits read back as the score |
| `Text.NatStringInjective` | api/utils/constants.py:204 | distinct scores print differently |
| `Text.LowerStrIdempotent` | api/utils/postprocess.py:22 | lower-casing yields lower-case text and leaves lower-case text unchanged |
| `Calendar.DaysInMonth` | api/utils/postprocess.py:27 | months have 28 to 31 days, and 29 exactly for February of a leap year |
| `Calendar.NextDayNumber` | api/utils/constants.py:147 | consecutive dates are one day apart in `toordinal` numbering |
| `Calendar.Format` | api/utils/postprocess.py:13 | `strftime("%Y-%m-%d")` gives ten characters with dashes at positions 4 and 7 |
| `Calendar.MonthField` | api/utils/postprocess.py:27 | the `%m` field is accepted exactly when it is one or two digits whose value is 1 to 12, so "1" and "01" both count, and it yields that value |
| `Calendar.DayField` | api/utils/postprocess.py:27 | the `%d` field is accepted exactly when it is one or two digits whose value is 1 to 31, or a blank and a non-zero digit, and it yields that value |
| `Calendar.ParseIso` | api/utils/postprocess.py:27 | whatever `strptime` accepts is a valid date |
| `Calendar.ParseIsoFields` | api/utils/postprocess.py:27 | `strptime` accepts only four year digits, "-", an accepted month field, "-" and an accepted day field, and returns the date those fields denote (the converse of `ParseFields`) |
| `Calendar.ParseFormat` | api/utils/postprocess.py:27-29 | every printed date is parsed back as itself |
| `Calendar.ParseFields` | api/utils/postprocess.py:27 | a four-digit year, "-", any accepted month field, "-" and any accepted day field parse as the date those fields denote |
| `Calendar.UnpaddedFields` | api/utils/postprocess.py:27 | `str` of a month or of a day is a field `strptime` accepts, with that value |
| `Calendar.ParseUnpadded` | api/utils/postprocess.py:27 | unpadded fields ("2024-1-5") and a blank-padded day ("2024-01- 5") parse as the date they denote |
| `Postprocess.ReplaceYear` | api/utils/postprocess.py:29 | `replace(year=y)` fails exactly for 29 February into a common year, and otherwise keeps month and day |
| `Postprocess.TaxDay` | api/utils/postprocess.py:21-23 | "tax day", "april 15", "4/15" in any case become 15 April of the current year |
| `Postprocess.StaleDateMoved` | api/utils/postprocess.py:25-29 | a parsed date of an earlier year moves to the current year with the same month and day |
| `Postprocess.StaleLeapDayKept` | api/utils/postprocess.py:28-31 | 29 February of an earlier year, when the current year is common, comes back unchanged |
| `Postprocess.OtherwiseKept` | api/utils/postprocess.py:26-33 | a string that does not parse, or a date of this year or later, comes back unchanged |
| `Postprocess.FormatNotTaxDay` | api/utils/postprocess.py:22 | no printed date is one of the tax-day names |
| `Postprocess.CorrectDueDateIdempotent` | api/utils/postprocess.py:17-33 | correcting a corrected due date changes nothing |
| `Postprocess.GetHolidayDate` | api/utils/postprocess.py:6-15 | the date of the first holiday whose lower-cased name contains the lower-cased query, printed; "Unknown" exactly when none does |
| `Postprocess.ProcessParsedTask` | api/utils/postprocess.py:35-49 | the two `ValueError`s for empty and undecodable content; otherwise the same keys, every field but `due_date` as decoded, `due_date` corrected |
| `Database.StringDueDate` | api/database.py:58-62 | a string due date is stored as no date exactly when `strptime` rejects it, and otherwise as the valid date it parses to |
| `Database.StoreTask` | api/database.py:53-71 | refused exactly when a required key is missing; otherwise the fields as given and the due date coerced (falsy → none, string → parsed or none, other → as given) |
| `Database.CorrectedDueDateStored` | api/database.py:57-62 | a corrected due date is stored as 15 April of this year for a tax-day name, as the moved date for a stale date, as itself for a parsed date of this year or later, and as no date when the text is neither a tax-day name nor a date |
| `Database.UnknownStoredAsNoDate` | api/database.py:57-62 | the "Unknown" of a failed holiday lookup survives correction and is stored as no date |

## Left out

- Case folding is ASCII only. `str.lower()` on other characters, and the four
  non-ASCII letters that IGNORECASE folds onto ASCII letters, are not
  modelled. `\d` matches ASCII digits only, while Python also accepts other
  Unicode decimal digits. This affects `PriorityInference.CurrentTier`,
  `Postprocess.GetHolidayDate`, `Postprocess.TaxDay`, the pattern
  scanners and `Calendar.ParseIso`, whose `\d\d\d\d` year and `int()`
  conversion also take non-ASCII decimal digits in CPython.
- The clock, the `holidays` package, `json.loads` and the database session
  (`db.add`, `commit`, `refresh`) are not part of this model. The first three
  are parameters. The session calls after line 71 of `api/database.py` are
  omitted.
- `Postprocess.GetHolidayDate` requires every holiday date to have a
  four-digit year. `Postprocess.CorrectDueDate` requires a four-digit current
  year, and so do the members built on it. Years before 1000 would print with
  fewer digits under some C libraries.
- `PriorityExplanation.ExplainPriority` renders the priority as its value
  ("High"). Python 3.11 and later format a `str`-mixin enum in an f-string as
  "Priority.HIGH".
- `Postprocess.ProcessParsedTask` requires the decoded JSON to be an object
  whose `due_date`, if present, is a string. In the source, a `null` or
  non-string `due_date` raises `AttributeError` in `correct_due_date`, and a
  non-object top level raises `TypeError` or misbehaves in the `in` test.
- Dictionaries are modelled as maps, so key order in the processed task is
  not captured. Key order in the score boards is captured by `PerTier`.
- JSON numbers are exact reals: integers and floats are not told apart, and
  floating-point rounding is not modelled.
- `PriorityResult`, the `Category` enum and the rest of the repository (HTTP
  routes, confidence resolution, search, migrations) are not part of this
  model.
- `PriorityInference.ScoreIndicator`: the source updates the board entry in
  place for each matching pattern. The model carries the tier's score and match
  list through `ScoreIndicator` and `ScoreIndicators`, and `ApplyPatterns`
  writes them back to the board once per tier. Only that tier's entries
  change, so the final boards are the same.
