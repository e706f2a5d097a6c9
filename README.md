# Performance-tracking backend: scores, criteria capacity and reference tables

A Dafny model of the request handlers at the core of an employee performance-evaluation
backend (Express over MySQL):

- **Civil-service composite score** (`Scoring`). Eighteen level ratings in [1,4], in three
  groups of six (technical, own behavioural, supervisor behavioural), plus a team rating in
  [1,5]. Each group is folded with fixed weights that sum to 100, and the groups are scaled
  by 70%, 5% and 10%, the team rating by 15%. The model proves:
  - the score succeeds exactly when every rating is in range;
  - the subtotals follow the four formulas;
  - the first failing rating is the one reported;
  - the overall result lies in [24.25, 100] with both endpoints reached;
  - the score is monotone in every rating.
- **Evaluation submissions** (`Evaluations`). There is one table per kind (self, peer,
  supervisor). Create and update compute the score before writing and store sections and
  results together, so no stored row has stale results. Listing by user returns exactly
  that user's rows.
- **Criteria and the weight-capacity guard** (`Criteria`). `canApplyWeight` computes the
  allowance left for a type. The model proves:
  - create, update (also when a row moves to another type) and delete keep every type's
    weights at or below 100;
  - re-saving a row with its own weight always fits;
  - create and update validate in the handlers' order and write nothing on any failure.
- **Evaluation types** (`Types`): the section percentage must parse to a number in (0,100].
- **Divisions** (`Divisions`): names are stored trimmed and non-empty, create refuses a
  trimmed name that already exists, and lookup by name is exact.
- **Pagination** (`Pagination`): `page` and `limit` are normalised, with
  `offset = (page-1)·limit` and `totalPages = ceil(total/limit)`. The model proves that a
  page is non-empty exactly when `page ≤ totalPages`, and that every row lies on exactly one
  page.

`Js` holds the JavaScript semantics the handlers depend on: truthiness, `== null`,
`Number()`, `parseInt(v, 10)`, `parseFloat`, `trim` and NaN comparisons. Request fields
are JSON scalars (`Js.Json`). All arithmetic is exact (`real`). `Results` is the
failure-compatible result type standing for the handlers' early error answers. `Tables`
orders a table's keys as `ORDER BY id` does.

Each table is a class over a `map` from primary key to row. Its methods take the
handler's inputs and return what the handler answers, as a `Result` whose error values
stand for the HTTP error responses. Their `ensures` give the whole new table state. The
decisions of the criteria handlers are also written as functions (`CreateOutcome`,
`UpdateOutcome`), and the capacity theorems are proved about those functions.

## Where the code and its design notes differ

The model follows the code, except for the first two points, where the code as written
cannot answer at all and the model gives the behaviour its queries evidently intend.

- The evaluation and type handlers bind `db` to the whole export of the database module
  (src/controllers/evaluation.controller.js:2, src/controllers/type.controller.js:2), and
  that export is `{ pool, initializeDatabase }` (src/config/db.js:68-71), which has no
  `query`. As written, every request of those handlers that reaches a query therefore
  fails with a server error. The model treats `db` as the pool, as the criteria and
  division handlers use it; the answers given before the first query (a failed score, a
  rejected percentage) are as written.
- The type handlers key the type table by `id` and store a `name`
  (src/controllers/type.controller.js:20,39,59,73), while the criteria queries join on
  `t.tid` and read `t.typeofevaluation` (src/controllers/criteria.controller.js:43,45,122).
  The schema is not part of this model. The model has one type table, keyed by the type
  id, whose `name` is what a criteria view reports as `typeofevaluation`.

- Updating or deleting an evaluation does not check whether a row was affected. A missing
  `eid` therefore gets the success answer and changes nothing; there is no NotFound.
- Submissions store only `user_id`, the sections and the results. There is no rater id and
  no period.
- The criteria handlers also reject a tid that does not parse as an integer. Create alone
  requires a truthy `criteria`. An unknown type is a validation error (400), not NotFound.
- Deleting a type does not check for criteria that still refer to it. Reads of a criterion
  join with its type, so such a criterion is then answered 404 by `getCriteriaById` and
  left out of listings. The listing's `total` comes from a count without the join and
  still includes it (`Criteria.CriteriaTable.ListCriteria`).

## Model

| member | source | states |
|---|---|---|
| `Scoring.SafeNum` | src/controllers/evaluation.controller.js:6-9 | a value whose `Number` conversion is NaN gives the fallback; otherwise the result converts to the same number |
| `Scoring.ValidateLevel` | src/controllers/evaluation.controller.js:12-18 | succeeds exactly when the rating converts to a number in [1,4] and then returns that number; otherwise fails naming the raw rating (a non-numeric one becomes null, which compares as 0) |
| `Scoring.LevelCoercions` | src/controllers/evaluation.controller.js:6-18 | `true` is accepted as level 1; the empty string, null, an absent rating and 4.5 are rejected |
| `Scoring.EmptyIsZero` | src/controllers/evaluation.controller.js:7 | `Number("")` is 0, so an empty rating compares below 1 |
| `Scoring.Fields` | src/controllers/evaluation.controller.js:24-31 | the group's ratings are the sections' fields in key order, an absent field reading as undefined |
| `Scoring.FirstInvalid` | src/controllers/evaluation.controller.js:32-35 | the first rating of a group that is not a level; all before it are levels |
| `Scoring.AccumulateMeaning` | src/controllers/evaluation.controller.js:32-35 | the `reduce` succeeds exactly when every rating is a level, yields the seed plus Σ weight·level/4, and otherwise fails on the first invalid rating |
| `Scoring.AccumulateOk` | src/controllers/evaluation.controller.js:32-35 | with every rating a level, the fold from any seed yields the seed plus Σ weight·level/4 |
| `Scoring.AccumulateStep` | src/controllers/evaluation.controller.js:33 | one step of the fold over a valid rating adds weight·level/4 to the running sum |
| `Scoring.WeightedProduct` | src/controllers/evaluation.controller.js:33 | the contribution of a rating, written as repeated quarter-levels, equals weight·level/4 |
| `Scoring.WeightedAdd` | src/controllers/evaluation.controller.js:33 | splitting a weight in two splits its contribution |
| `Scoring.WeightedMonotone` | src/controllers/evaluation.controller.js:33 | a higher level never contributes less |
| `Scoring.WeightedBounds` | src/controllers/evaluation.controller.js:33 | a level in [1,4] contributes between a quarter of the weight and the whole weight |
| `Scoring.PointsBounds` | src/controllers/evaluation.controller.js:32-35 | with weights summing to W and levels in [1,4], the points lie in [W/4, W] |
| `Scoring.PointsMonotone` | src/controllers/evaluation.controller.js:32-35 | raising ratings pointwise never lowers a group's points |
| `Scoring.WeightTables` | src/controllers/evaluation.controller.js:24-61 | both weight tables have six non-negative entries summing to 100 |
| `Scoring.AllLevelsAppend` | src/controllers/evaluation.controller.js:24-65 | all eighteen ratings are levels exactly when each group's ratings are |
| `Scoring.FirstInvalidAppend` | src/controllers/evaluation.controller.js:24-65 | the first invalid rating of two groups read one after the other is in the first group if it has one, else in the second |
| `Scoring.ScoreMeaning` | src/controllers/evaluation.controller.js:21-86 | the score exists exactly when all levels are in [1,4] and the team rating in [1,5]; then technical = points·70/100, own = ·5/100, supervisor = ·10/100, team = team/5·15, overall = sum of the four, average = sum of the three groups' points |
| `Scoring.FirstInvalidOfGroups` | src/controllers/evaluation.controller.js:24-65 | the first invalid rating of the eighteen, read group after group, is the first invalid rating of the first group that has one |
| `Scoring.LevelErrorFirst` | src/controllers/evaluation.controller.js:24-65 | when any level is outside [1,4] the score fails naming the first such rating in reading order (technical, own, supervisor), whatever the team rating |
| `Scoring.TeamErrorLast` | src/controllers/evaluation.controller.js:68-72 | with all levels valid and the team rating outside [1,5] the score fails naming the coerced team rating (0 for a non-numeric one) |
| `Scoring.ScoreBounds` | src/controllers/evaluation.controller.js:76-77 | every computed overall result lies in [24.25, 100] and every average point in [75, 300] |
| `Scoring.ScoreOverall` | src/controllers/evaluation.controller.js:36-76 | a computed score has all levels valid and its overall result is 70% of the technical points, 5% of the own, 10% of the supervisor points plus team/5·15 |
| `Scoring.UniformPoints` | src/controllers/evaluation.controller.js:32-35 | a group rated `l` throughout is all levels and scores the weight sum's contribution at `l` |
| `Scoring.UniformGroup` | src/controllers/evaluation.controller.js:32-35 | a group rated `l` throughout, with weights summing to 100, scores 25·l |
| `Scoring.UniformValid` | src/controllers/evaluation.controller.js:24-72 | ratings all at a level `l` in [1,4] and a team rating in [1,5] are all valid, and each group scores 25·l |
| `Scoring.UniformScore` | src/controllers/evaluation.controller.js:21-77 | all levels `l` with team `t` give a score whose totals are 70l/4, 5l/4, 10l/4 and 3t, overall 85l/4 + 3t and average 75l |
| `Scoring.TopScore` | src/controllers/evaluation.controller.js:76-77 | all levels 4 with team 5 give overall 100 and average 300 |
| `Scoring.BottomScore` | src/controllers/evaluation.controller.js:76-77 | all levels 1 with team 1 give overall 24.25 and average 75 |
| `Scoring.OverallMonotone` | src/controllers/evaluation.controller.js:32-76 | pointwise larger level ratings and a larger team rating give an overall formula at least as large |
| `Scoring.ScoreMonotone` | src/controllers/evaluation.controller.js:76 | raising any of the nineteen ratings, keeping both scores defined, never lowers the overall result |
| `Evaluations.RowsOfUser` | src/controllers/evaluation.controller.js:112-115 | exactly the rows whose user is `uid`, unchanged |
| `Evaluations.StoredSubmission` | src/controllers/evaluation.controller.js:96-101 | a stored row's results are its sections' score, so those sections have all levels in [1,4], team in [1,5], and the overall result lies in [24.25, 100] |
| `Evaluations.SubmissionTable.Create` | src/controllers/evaluation.controller.js:93-107 | answers with the score of the sections; inserts one row holding user, sections and those results under a fresh id only when scoring succeeded, otherwise the table is unchanged |
| `Evaluations.SubmissionTable.Update` | src/controllers/evaluation.controller.js:122-137 | answers with the score; when it succeeds and the row exists, sections and results are replaced together and the user is kept; otherwise nothing changes |
| `Evaluations.SubmissionTable.Replace` | src/controllers/evaluation.controller.js:128-131 | the `UPDATE` of one existing row: exactly row `eid` now holds the given consistent row, and the table stays consistent |
| `Evaluations.SubmissionTable.Delete` | src/controllers/evaluation.controller.js:139-147 | removes exactly row `eid`, if present, and nothing else |
| `Evaluations.SubmissionTable.ByUser` | src/controllers/evaluation.controller.js:109-120 | exactly the stored rows whose user is `uid` |
| `Criteria.TidSumSplit` | src/controllers/criteria.controller.js:9-10 | the per-type weight sum can take any row first: it is that row's share plus the sum of the others |
| `Criteria.TidSumNonNegative` | src/controllers/criteria.controller.js:9-17 | with weights in [0,100] every per-type sum is non-negative |
| `Criteria.TidSumPut` | src/controllers/criteria.controller.js:9-17 | writing row `k` replaces its share of every type's sum with the new row's share |
| `Criteria.TidSumRemove` | src/controllers/criteria.controller.js:9-17 | removing a row never raises any type's sum |
| `Criteria.CanApplyWeightOnInsert` | src/controllers/criteria.controller.js:7-20 | without an excluded row, `remaining` is 100 minus the type's sum and `ok` holds exactly when the type's sum after inserting the row is at most 100 (inclusive boundary) |
| `Criteria.CanApplyWeightOnUpdate` | src/controllers/criteria.controller.js:7-20 | excluding row `cid`, `ok` holds exactly when the new type's sum after rewriting row `cid` is at most 100 |
| `Criteria.CheckRecord` | src/controllers/criteria.controller.js:112-126 | accepts exactly a numeric tid of an existing type, a weight in [0,100] and a level in [1,4] (NaN failing every range), and yields the row of those converted values; otherwise reports the first failing check in the order tid, weight, level, type |
| `Criteria.CreateOutcomeMeaning` | src/controllers/criteria.controller.js:103-136 | a missing or falsy field is reported first and only then; an accepted row is well formed, has an existing type, the body's criteria and converted weight, and fits what its type has left; a capacity refusal reports `100 − sum` and the weight exceeds it |
| `Criteria.UpdateOutcomeMeaning` | src/controllers/criteria.controller.js:164-208 | 404 exactly for an unknown cid; a saved row is well formed, has an existing type and fits what its type has left without its old weight, each field being the body's converted value when given and the stored one when omitted; a capacity refusal reports `100 − sum` without the row, and the weight exceeds it |
| `Criteria.CreateKeepsCapacity` | src/controllers/criteria.controller.js:128-141 | inserting an accepted row keeps every row well formed and every type's weights at most 100 |
| `Criteria.UpdateKeepsCapacity` | src/controllers/criteria.controller.js:191-208 | writing an accepted update keeps every row well formed and every type's weights at most 100, also when the row changes type |
| `Criteria.DeleteKeepsCapacity` | src/controllers/criteria.controller.js:220-228 | removing a row keeps every type within capacity |
| `Criteria.ResaveFits` | src/controllers/criteria.controller.js:191-196 | in a table within capacity, a row with its own tid and weight always passes the check that excludes it |
| `Criteria.ResaveUnchanged` | src/controllers/criteria.controller.js:168-196 | an update with every field omitted succeeds and leaves the row as it was, provided its type still exists |
| `Criteria.Matching` | src/controllers/criteria.controller.js:34-38 | exactly the rows of the filtered type, or all rows without a filter |
| `Criteria.Joined` | src/controllers/criteria.controller.js:40-51 | every listed view is a stored row with an existing type, carrying that type's name and percentage |
| `Criteria.JoinedKeeps` | src/controllers/criteria.controller.js:44-45 | the join keeps every row whose type exists |
| `Criteria.JoinedOrdered` | src/controllers/criteria.controller.js:47 | over keys in ascending order, the joined rows are in ascending `cid` order |
| `Criteria.WindowInCidOrder` | src/controllers/criteria.controller.js:47-48 | a LIMIT/OFFSET window keeps ascending `cid` order |
| `Criteria.CriteriaTable.CreateCriteria` | src/controllers/criteria.controller.js:98-151 | answers with the outcome of the checks in order; on success inserts exactly the accepted row under a fresh cid, otherwise the table is unchanged; the capacity invariant is kept |
| `Criteria.CriteriaTable.UpdateCriteria` | src/controllers/criteria.controller.js:155-217 | 404 for an unknown cid; omitted fields default to the stored row; on success row `cid` alone is rewritten, otherwise nothing changes; the capacity invariant is kept |
| `Criteria.CriteriaTable.DeleteCriteria` | src/controllers/criteria.controller.js:220-233 | removes exactly row `cid` when present, otherwise answers 404; no other row changes |
| `Criteria.CriteriaTable.GetCriteriaById` | src/controllers/criteria.controller.js:74-94 | the row joined with its type, or 404 when the row or its type is missing |
| `Criteria.CriteriaTable.ListCriteria` | src/controllers/criteria.controller.js:23-71 | the `LIMIT`/`OFFSET` window of the joined filtered rows in `cid` order, so at most `limit` stored rows of the filtered type with existing types, ascending; the pagination counts every filtered row |
| `Pagination.Normalize` | src/controllers/criteria.controller.js:25-29 | a `page`/`limit` parameter whose `parseInt` is at least 1 is kept; NaN, anything below 1 and an absent one give the default; the result is at least 1 |
| `Pagination.CeilDiv` | src/controllers/criteria.controller.js:65 | the result `r` satisfies `(r−1)·limit < total ≤ r·limit`, i.e. it is `ceil(total/limit)` |
| `Pagination.Paging` | src/controllers/division.controller.js:7-29 | page and limit are the normalised parameters, `offset = (page−1)·limit ≥ 0`, and `totalPages = ceil(total/limit)` |
| `Pagination.PageOf` | src/controllers/division.controller.js:12-29 | page `p` of `l` rows: `offset = (p−1)·l ≥ 0` and `totalPages` is the least page count covering `total` rows |
| `Pagination.Window` | src/controllers/division.controller.js:14-17 | `LIMIT l OFFSET o`: at most `l` rows, the rows from position `o` on, empty past the end |
| `Pagination.PageNonEmptyIff` | src/controllers/division.controller.js:12-29 | a page holds rows exactly when its number is at most `totalPages` |
| `Pagination.WindowNonEmptyIff` | src/controllers/division.controller.js:14-17 | for a page count that is `ceil(total/limit)`, the window of page `p` is non-empty exactly when `p` is at most that count |
| `Pagination.RowOnOnePage` | src/controllers/division.controller.js:12-17 | row `i` lies on page `i/limit + 1` at position `i mod limit`, and on no other page |
| `Types.SafeNumber` | src/controllers/type.controller.js:4-7 | `parseFloat` of the value, or 0 when that is NaN |
| `Types.CheckPercentage` | src/controllers/type.controller.js:33-36 | accepts exactly a value that parses to a number in (0,100], returning that number |
| `Types.PercentageWithUnit` | src/controllers/type.controller.js:33-36 | a percentage followed by a unit or other text that cannot continue a number (as in "50%") is accepted as its leading number when that is in (0,100] |
| `Types.TextRejected` | src/controllers/type.controller.js:4-7 | text whose first non-space character cannot start a number is coerced to 0 and rejected |
| `Types.PercentageBounds` | src/controllers/type.controller.js:34 | absent, 0 and 100.5 are rejected; 100 is accepted |
| `Types.TypeTable.CreateType` | src/controllers/type.controller.js:28-47 | rejects before any insert unless the percentage passes; otherwise inserts and returns one row with the parsed percentage under a fresh id; names need not be unique |
| `Types.TypeTable.UpdateType` | src/controllers/type.controller.js:49-69 | the percentage check first, then 404 for a missing id; it succeeds exactly when both pass, and then exactly row `tid` is overwritten with the parsed percentage |
| `Types.TypeTable.DeleteType` | src/controllers/type.controller.js:71-80 | removes exactly row `tid`, or answers 404 and changes nothing |
| `Types.TypeTable.GetTypeById` | src/controllers/type.controller.js:18-26 | the stored row, or 404 exactly when there is none |
| `Js.Trim` | src/controllers/division.controller.js:42-48 | the result is an infix of the string with only whitespace before and after it, starts and ends with a non-space, and is empty exactly when the string is all whitespace |
| `Js.TrimIdempotent` | src/controllers/division.controller.js:42-48 | trimming a trimmed name changes nothing |
| `Js.StringToNumberTrims` | src/controllers/evaluation.controller.js:7 | `Number(s)` reads the decimal literal that trimming `s` leaves (the empty literal being 0) |
| `Js.DecimalPrefixOfDigits` | src/controllers/type.controller.js:5 | a run of digits followed by text that cannot continue a number is read as exactly that run |
| `Js.ParseFloatLeadingDigits` | src/controllers/type.controller.js:5 | `parseFloat` of digits followed by such text is the value of the digits |
| `Js.ParseFloatNoDigits` | src/controllers/type.controller.js:5 | `parseFloat` of text whose first non-space character cannot start a number is NaN |
| `Js.ParseInt` | src/controllers/criteria.controller.js:108-110 | every number `parseInt` yields is an integer; `undefined`, `null` and booleans give NaN |
| `Js.ParseIntOfNumber` | src/controllers/criteria.controller.js:108-110 | a JSON number is truncated toward zero |
| `Js.ParseIntLeadingDigits` | src/controllers/criteria.controller.js:108-110 | a run of digits followed by a non-digit or the end is read as the value of the digits |
| `Js.ParseIntSignedDigits` | src/controllers/criteria.controller.js:108-110 | a `+` or `-` before such a run is read, and `-` negates the value |
| `Js.ParseIntNoDigits` | src/controllers/criteria.controller.js:108-110 | text with no digit after the leading whitespace and optional sign reads as NaN |
| `Divisions.CheckName` | src/controllers/division.controller.js:41-43 | accepts exactly a string that is not all whitespace, yielding its trimmed form; a falsy or blank name is required, and a truthy non-string one fails on `trim` |
| `Divisions.TrimPadded` | src/controllers/division.controller.js:42-48 | a stored name with one blank on each side trims back to the name |
| `Divisions.PaddedNameAccepted` | src/controllers/division.controller.js:41-48 | a stored name padded with blanks passes the name check as the name itself |
| `Divisions.BlankNameRequired` | src/controllers/division.controller.js:42-43 | a name of blanks only, the empty one included, is a missing name |
| `Divisions.RefusedNameExamples` | src/controllers/division.controller.js:42-43 | "  " and "" are missing names; the number 7 fails on `trim` |
| `Divisions.TrimmedNameIsFixed` | src/controllers/division.controller.js:53-56 | a stored (trimmed, non-empty) name trims to itself |
| `Divisions.WindowInIdOrder` | src/controllers/division.controller.js:14-17 | a LIMIT/OFFSET window keeps ascending id order |
| `Divisions.DivisionTable.CreateDivision` | src/controllers/division.controller.js:39-65 | missing or blank names are refused, an existing trimmed name is refused, and exactly otherwise one row with the trimmed name is added under the next id; any refusal leaves the table unchanged; stored names stay trimmed and non-empty |
| `Divisions.DivisionTable.Append` | src/controllers/division.controller.js:53-56 | the `INSERT`: one row with the given trimmed name under the next id, nothing else changed |
| `Divisions.DivisionTable.UpdateDivision` | src/controllers/division.controller.js:68-87 | the name check, then 404 for a missing id; it succeeds exactly when both pass, and then exactly row `id` holds the trimmed name, with no uniqueness check |
| `Divisions.DivisionTable.Rename` | src/controllers/division.controller.js:75-78 | the `UPDATE` of an existing row: exactly row `id` now holds the given trimmed name |
| `Divisions.DivisionTable.DeleteDivision` | src/controllers/division.controller.js:90-104 | removes exactly row `id`, or answers 404 and changes nothing |
| `Divisions.DivisionTable.GetDivisionIdByName` | src/controllers/division.controller.js:107-121 | an id whose row holds exactly `name`, or 404 exactly when none does; a name with surrounding whitespace is never found |
| `Divisions.DivisionTable.InIdOrder` | src/controllers/division.controller.js:15 | every stored row once, in ascending id order |
| `Divisions.DivisionTable.ListDivisions` | src/controllers/division.controller.js:5-36 | the `LIMIT`/`OFFSET` window of the rows in id order, so at most `limit` stored rows, ascending, with the pagination of the whole table |
| `Tables.SortedKeys` | src/controllers/division.controller.js:15 | the keys of a table, each once, strictly ascending |

## Left out

- Rounding: `overallResult` and `averagePoint` are kept exact; the `toFixed(2)` rounding is
  not modelled, and neither are IEEE-754 doubles (overflow, underflow, inexact sums). The
  `remaining` of a capacity refusal is reported exact as well, not rounded to two places.
- `Js.StringToNumber`: the spellings `Infinity`, `0x…`, `0b…` and `0o…` read as NaN, where
  `Number` reads them as ±Infinity or as the integer they spell. Every range check in the
  core rejects ±Infinity as it rejects NaN, so outcomes differ only for hexadecimal, binary
  and octal text (a rating or weight `"0x2"` is accepted by the code and refused here).
- `Js.ParseFloat`: `Infinity` reads as NaN, which every range check treats alike. Text
  such as `0x1` is read as its leading `0`, as `parseFloat` does.
- `Js.Json`: request fields are JSON scalars. Arrays and objects are not modelled; the code
  converts them through their string form, so for instance `Number([3])` is 3 and a
  rating `[3]` is accepted.
- `Js.ParseInt`: a JSON number is truncated. A number whose decimal spelling uses an
  exponent (`1e21`, `1e-7`) is read differently by the real `parseInt`.
- Persistence: the database driver, pools and schema set-up are not part of this model.
  Each request is one atomic step on an in-memory table, so there is no concurrency (the
  capacity check and the write are separate queries in the code). Auto-increment ids are a
  counter. Storage failures (the 500 answers) are not modelled.
- MySQL comparison semantics: path parameters and the criteria `tid` filter are taken as
  integers, since MySQL's coercion of string parameters to numbers is not modelled.
  Division names are compared exactly, since collation (case and trailing-space
  insensitivity) is not modelled. The submission and type `user_id`/name/description
  fields are stored as given.
- `affectedRows`: an UPDATE is taken to affect every row it matches. A type or division
  update with unchanged values therefore still succeeds.
- A `sections` body that is not an object, which makes the score fail with a TypeError, is
  not modelled; sections are always a map.
- `Evaluations.SubmissionTable.ByUser` returns the matching rows as a map keyed by id,
  without the response's row order.
- `getAllTypes` (an unfiltered listing) and the admin, user, upload, middleware and route
  modules are not part of this model.
- HTTP status codes and message texts: each error is a constructor of a result datatype.
