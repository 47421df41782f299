# Task priority engine, modelled in Dafny

This project models the `PriorityAlgorithm` class of a task-prioritisation backend
(`backend/backend/priority_algorithm.py`) and proves properties of it. The class scores a batch of
tasks, each with a due date, an estimate in hours, an importance rating from 1 to 10 and a list of
ids it depends on. It proceeds in these steps:

- it resolves a strategy name to four weights;
- it computes four sub-scores per task: urgency, importance, effort and dependency standing;
- it rejects the batch when the dependency map has a cycle;
- otherwise it combines the sub-scores into a rounded priority score, labels each task with a
  priority level, and sorts the batch by descending score;
- it suggests the first `count` tasks, each with a sentence saying why.

The model is split into one module per part of the class:

| file | module | what it holds |
|---|---|---|
| `task.dfy` | `TaskModel` | the task record, the dependency map, the input constraints |
| `strategies.dfy` | `Strategies` | the weight table and the resolver |
| `subscores.dfy` | `SubScores` | the four sub-score calculators |
| `cycles.dfy` | `CycleDetection` | the depth-first cycle detector, as methods over a visited set |
| `stable_sort.dfy` | `StableSort` | `list.sort(key=..., reverse=True)` as a stable descending sort |
| `reasons.dfy` | `Reasons` | the clauses of a suggestion reason and the sentence they make |
| `engine.dfy` | `Engine` | the class itself: scoring, levels, analysis, suggestions |
| `scenarios.dfy` | `Scenarios` | the repository's unit tests, stated as lemmas |

The pure parts of the class become functions with lemmas:
- the resolver;
- the calculators;
- `calculate_priority_score`;
- `get_priority_level`;
- the condition table of `_generate_reason`.

The parts that work by updating state become methods:
- the cycle detector, whose loops fill a shared `visited` set and extend `cycles`;
- `analyze_tasks`, whose loops fill the dependency dictionary and append to a list;
- `suggest_top_tasks`, whose loop builds the suggestion list;
- `_generate_reason`, which has no loop: it is a fixed sequence of conditional appends to `reasons`.

The detector methods are proved against predicates: `IsCycle` for every reported cycle, `Acyclic`
for the no-cycle verdict, and a finishing-order ranking (`FinishRanked`) as the invariant of the
search. The other methods are proved against specification functions: `DependencyMapOf` and
`KeyOrderOf` for the dependency dictionary, `RankedTasks` for the ranking, and `ReasonClauses`
(characterised by `Explains`) for the reasons. `PriorityAlgorithm` is a class whose `strategy` and
`weights` are fixed by its constructor.

Conventions of the model:
- **Dates.** A date is a day number. `today` is a parameter, so `(due_date - today).days` is `due - today`.
- **Logarithm.** `math.log10` is a parameter `log10: real -> real`. Lemmas that need its properties
  require `IsLog10`: strictly increasing on the positive reals, `log10(10) = 1` and `log10(2) > 0.3`.
- **Numbers.** Scores and weights are exact reals. `round(x, 2)` is round-half-to-even at two
  decimals on the exact value (`Round2`).
- **Task ids.** A missing id is `None`.
- **Dependency map.** The dictionary is a `map<int, seq<int>>`. Its key iteration order is kept
  separately as the sequence of first insertions (`KeyOrderOf`), because the detector walks the keys
  in that order.
- **Errors.** The `ValueError` that `analyze_tasks` raises is the `CircularDependency(cycles)` case of
  the `Analysis` result.

Some behaviours of the code are easy to miss on a first reading:
- **Urgency, 8 to 14 days.** The band is `60 - 2(d - 7)`, not `62 - 2(d - 7)`. Urgency therefore
  drops from 62 to 58 between 7 and 8 days.
- **Urgency, overdue.** An overdue task scores exactly 100. The overdue penalty is computed but
  `min(100, ...)` discards it, so urgency never exceeds 100.
- **Score range.** For input that passes validation (importance 1 to 10, hours 0.1 to 1000), the
  priority score lies in [10, 100]; `Engine.ScoreInRange` proves this. The calculator itself does
  not clamp the importance score, so an unvalidated rating of 15 gives an importance score of 150.
- **Urgency at 31 days.** The band after 30 days restarts at 40, so urgency rises from 24 at 30
  days to 39.5 at 31 days.
- **Blocking count.** The count is taken over the dependency map's entries, not over all tasks.
  Tasks without an id or without dependencies never count, and an entry that lists its own id
  counts once.
- **Suggestion reasons.** A reason does not cite the largest sub-score. It lists the clauses of a
  fixed table of conditions: due date, importance at least 8, at most 2 hours, dependency score
  above 70, and one strategy-specific clause. When none applies it falls back to "balanced
  priority across all factors".

## Model

| member | source | states |
|---|---|---|
| Strategies.GetWeights | backend/backend/priority_algorithm.py:10-37 | the weights are non-negative and sum to exactly 1; any name other than the four strategies gets the `smart_balance` weights; the result is always one of the four table rows |
| Strategies.FastestWinsFavoursEffort | backend/backend/tests.py:106-117 | `fastest_wins` weighs effort strictly more than `smart_balance` |
| SubScores.UrgencyScore | backend/backend/priority_algorithm.py:39-54 | urgency lies in [10, 100], and an overdue task gets exactly 100 (the cap absorbs the penalty) |
| SubScores.UrgencyNonIncreasing | backend/backend/priority_algorithm.py:42-54 | a later due date never raises urgency, for two dates on the same side of the 30/31 day edge |
| SubScores.UrgencyRisesAfterThirtyDays | backend/backend/priority_algorithm.py:51-54 | urgency is 24 at 30 days and 39.5 at 31 days, so it is not monotone across that edge |
| SubScores.ImportanceScore | backend/backend/priority_algorithm.py:56-57 | the score is ten times the rating, in [10, 100] for ratings 1 to 10 |
| SubScores.ImportanceOrder | backend/backend/priority_algorithm.py:56-57 | a rating is lower than another exactly when its score is lower |
| SubScores.EffortScore | backend/backend/priority_algorithm.py:59-63 | below one hour the score lies in (90, 100], strictly under 100 for a positive estimate; from one hour on it is clamped to [10, 100] |
| SubScores.EffortStrictlyDecreasingBelowOneHour | backend/backend/priority_algorithm.py:60-61 | below one hour a shorter task gets a strictly higher effort score |
| SubScores.EffortNonIncreasing | backend/backend/priority_algorithm.py:59-63 | for positive estimates a longer task never gets a higher effort score, across the one-hour edge as well |
| SubScores.QuickTaskBeatsLongTask | backend/backend/tests.py:30-33 | a half-hour task has a higher effort score than a ten-hour task |
| SubScores.DependencyScore | backend/backend/priority_algorithm.py:65-78 | the score is 50, plus 10 per blocked entry capped at 50, minus 20 when the task has its own dependencies; it lies in [30, 100], so the outer clamp never changes it |
| SubScores.DependencyScoreOrder | backend/backend/priority_algorithm.py:67-76 | blocking more entries never lowers the score, and only whether a task has dependencies matters, not how many |
| CycleDetection.IndexOf | backend/backend/priority_algorithm.py:83 | `path.index(node)` is the first position holding `node` |
| CycleDetection.RankedIsAcyclic | backend/backend/priority_algorithm.py:80-106 | a map whose keys can be ranked so that every dependency ranks lower has no cycle |
| CycleDetection.PathSuffixIsCycle | backend/backend/priority_algorithm.py:82-84 | when the search reaches a node already on its path, the path from that node's first position is a cycle without repeats |
| CycleDetection.FinishNode | backend/backend/priority_algorithm.py:89-96 | a node whose dependencies have all finished without a cycle can take the next rank |
| CycleDetection.Dfs | backend/backend/priority_algorithm.py:81-96 | `dfs`: a node met again right after it was pushed reports exactly `[node]`; a node visited earlier and off the path reports nothing and leaves `visited` as it was; `visited` only grows and gains the node; every reported list is a cycle without repeats; every newly visited node that lists itself is reported as `[x]`; when none is reported, every finished node has a rank that falls along edges |
| CycleDetection.Explore | backend/backend/priority_algorithm.py:89-96 | a first visit marks the node and searches each dependency in the order of its dependency list, keeping all of the `Dfs` guarantees; a node that lists itself is reported as `[node]` |
| CycleDetection.DetectCircularDependencies | backend/backend/priority_algorithm.py:98-106 | every reported list is a cycle without repeated ids, the result is empty exactly when the map has no cycle, and every task that lists itself is reported as `[id]` |
| StableSort.SortDescSorted | backend/backend/priority_algorithm.py:168 | the sorted list has non-increasing keys |
| StableSort.SortDescPermutation | backend/backend/priority_algorithm.py:168 | the sorted list holds exactly the input elements, each as often |
| StableSort.SortDescStable | backend/backend/priority_algorithm.py:168 | elements with equal keys keep their input order |
| StableSort.SortDescMapPermutation | backend/backend/priority_algorithm.py:168 | any projection of the elements is permuted too, which gives "same tasks in, same tasks out" |
| StableSort.SortDescOfSorted | backend/backend/priority_algorithm.py:168 | input already in non-increasing order is returned unchanged |
| Reasons.NatToString | backend/backend/priority_algorithm.py:187 | the day count renders as decimal digits without a leading zero |
| Reasons.NatToStringRoundTrip | backend/backend/priority_algorithm.py:187 | reading the rendered digits back gives the number |
| Reasons.RenderReason | backend/backend/priority_algorithm.py:208 | the sentence starts with "Recommended because: " |
| Reasons.ReasonMentionsClauses | backend/backend/priority_algorithm.py:208 | the sentence contains the text of every clause |
| Reasons.ReasonClausesExplains | backend/backend/priority_algorithm.py:184-206 | the clause list of `_generate_reason` holds exactly the clauses whose condition holds, in append order |
| Reasons.ExplainsShape | backend/backend/priority_algorithm.py:192-206 | a reason list has at least one clause; the fallback appears exactly when it is the only clause; "quick win" appears exactly when the estimate is at most 2 hours; "high importance" appears exactly when the rating is at least 8 |
| Reasons.ExplainsUnique | backend/backend/priority_algorithm.py:184-206 | only one clause list meets those conditions, so the reason is determined by the task |
| Engine.GetPriorityLevel | backend/backend/priority_algorithm.py:133-141 | Critical exactly from 80, High exactly in [65, 80), Medium exactly in [45, 65), Low exactly below 45 |
| Engine.LevelMonotone | backend/backend/priority_algorithm.py:133-141 | a higher score never gets a lower level |
| Engine.Round2 | backend/backend/priority_algorithm.py:124-131 | rounding to two places gives a whole number of hundredths and moves a value by at most 0.005 |
| Engine.Round2Monotone | backend/backend/priority_algorithm.py:131 | rounding keeps the order of scores |
| Engine.Round2OfInt | backend/backend/priority_algorithm.py:125-127 | whole numbers are unchanged by rounding |
| Engine.CombineBetween | backend/backend/priority_algorithm.py:116-122 | for every strategy, the weighted sum lies between the smallest and the largest sub-score |
| Engine.SubScoresInRange | backend/backend/priority_algorithm.py:110-115 | for valid input every sub-score lies in [10, 100] |
| Engine.SliceEnd | backend/backend/priority_algorithm.py:174 | `[:count]` keeps `min(count, n)` elements for a non-negative count, and `max(0, n + count)` for a negative one |
| Engine.KeyOrderIsKeys | backend/backend/priority_algorithm.py:144-149 | the key order lists exactly the keys of the dependency map |
| Engine.DependencyMapEntries | backend/backend/priority_algorithm.py:144-149 | an id is a key exactly when some task with that id, truthy, has non-empty dependencies, and its value is the list of the last such task |
| Engine.DependencyMapOfUnique | backend/backend/priority_algorithm.py:144-149 | with distinct ids, each such task's own list is its entry |
| Engine.BlocksOthersThreshold | backend/backend/priority_algorithm.py:196 | the dependency score exceeds 70, which triggers "blocks other tasks", exactly when at least 3 entries list the task, or at least 5 when it has dependencies of its own |
| Engine.PriorityAlgorithm.constructor | backend/backend/priority_algorithm.py:6-8 | the strategy (by default "smart_balance") is stored and the weights are those the resolver gives for it |
| Engine.PriorityAlgorithm.CalculatePriorityScore | backend/backend/priority_algorithm.py:108-131 | the score is within 0.005 of the weighted sum; the breakdown carries the weights, and the rounded sub-scores, with importance and dependency unchanged |
| Engine.PriorityAlgorithm.ScoreTask | backend/backend/priority_algorithm.py:156-167 | the analysed record keeps the task, its score, the level of that score and the score breakdown, whose weights are the strategy's and whose dependency sub-score is the unrounded one |
| Engine.PriorityAlgorithm.Annotate | backend/backend/priority_algorithm.py:155-167 | every task is scored once, in input order |
| Engine.PriorityAlgorithm.AnalyzeTasks | backend/backend/priority_algorithm.py:143-170 | the batch is rejected exactly when its map has a cycle, with the genuine cycles found; otherwise the result is as long as the input, holds the same tasks, each as often as in the input, and is the stable descending ranking |
| Engine.PriorityAlgorithm.GenerateReason | backend/backend/priority_algorithm.py:182-208 | the clauses are exactly those whose condition holds, in append order, at least one; the sentence is their rendering and starts with the prefix |
| Engine.PriorityAlgorithm.SuggestTopTasks | backend/backend/priority_algorithm.py:172-180 | the cycle error is passed on; otherwise the result has the first `[:count]` ranked tasks (by default 3) in order, each with the clauses that explain it and their sentence |
| Engine.PriorityAlgorithm.AttachReasons | backend/backend/priority_algorithm.py:176-178 | every selected record, in order, gets the clauses that explain it and the sentence that renders them; nothing is dropped or reordered |
| Engine.RankedTasksFacts | backend/backend/priority_algorithm.py:155-170 | the ranking is as long as the input, holds the same tasks, is sorted by score with ties in input order, and each record is its own task's scoring |
| Engine.ScoreWithinSubScores | backend/backend/priority_algorithm.py:108-131 | the score lies between the rounded smallest and largest sub-score |
| Engine.ScoreInRange | backend/backend/priority_algorithm.py:108-131 | for valid input the priority score lies in [10, 100] |
| Engine.LevelFollowsScore | backend/backend/priority_algorithm.py:131-141 | a higher weighted sum never gets a lower level, rounding included |
| Scenarios.UrgencyExamples | backend/backend/tests.py:11-23 | 5 days overdue gives at least 100, due today 95, 30 days out below 50 |
| Scenarios.ImportanceExamples | backend/backend/tests.py:25-28 | ratings 1, 5 and 10 give 10, 50 and 100 |
| Scenarios.BlockingExample | backend/backend/tests.py:78-90 | a task blocking two entries, with no dependencies of its own, scores 70 |
| Scenarios.MutualDependencyExample | backend/backend/tests.py:35-41 | `{1: [2], 2: [1]}` has the cycle [1, 2] and so is not acyclic |
| Scenarios.ChainExample | backend/backend/tests.py:43-49 | `{1: [2], 2: [3]}` has no cycle |
| Scenarios.SelfDependencyExample | backend/backend/priority_algorithm.py:82-84 | a task depending on itself makes a cycle, and the only cycle without repeats is `[id]` |
| Scenarios.SelfDependencyInLargerMap | backend/backend/priority_algorithm.py:82-84 | in a map where task 1 lists itself and also takes part in a longer cycle, `[1]` is reported and `[2]` is not |
| Scenarios.RankTwo | backend/backend/priority_algorithm.py:168 | two tasks are ranked by score, the first ahead on a tie |
| Scenarios.SortingExample | backend/backend/tests.py:51-76 | the high-priority task (id 2) is ranked first with a strictly higher score |
| Scenarios.MissingDependenciesExample | backend/backend/tests.py:92-104 | one task without a dependency list is accepted and gives one record |
| Scenarios.SuggestExample | backend/backend/tests.py:119-142 | with count 2 both tasks are suggested, the one due today first, and its reason is "Recommended because: due today, high importance, quick win" |

## Left out

- `views.py`, `urls.py` and `models.py` are not part of this model. They hold HTTP handlers,
  routing and persistence, and the engine does not use them.
- `serializers.py` is not part of this model, because it is declarative field validation. Its
  constraints appear where a property needs them: `WellFormedTask` for the rating and hours
  range, and `UniqueIds` for distinct ids.
- The clock: `date.today()` is read twice in the source, once per urgency score and once per reason.
  The model passes one `today` to every call, so a run that crosses midnight is not modelled.
- Floating point: scores are exact reals. Python's `round` acts on binary doubles, and the model
  rounds the exact value half to even. A double that lies just below a tie can therefore round
  differently.
- `math.log10` is a parameter, not a definition. Only its monotonicity, `log10(10) = 1` and
  `log10(2) > 0.3` are used.
- The exception message `"Circular dependencies detected: ..."` is not modelled. The error case
  carries the list of cycles instead.
- `suggest_top_tasks` writes `'reason'` into the shared task dictionaries in place. The model
  returns new `Suggestion` values instead, so the aliasing is not modelled: the dictionaries
  returned by `analyze_tasks` are not changed.
- The inner `dfs` is split into `Dfs` (its path and visited checks) and `Explore` (its first visit),
  so that termination can be stated. `path[:]` is a value copy in the model.
- `title` and the other task fields that `**task` passes through are kept in the `Task` record but
  play no part in the computation.
- Engine.CombineBetween: stated for the four weight vectors the resolver can return, not for
  arbitrary convex weights.
- Engine.PriorityAlgorithm.CalculatePriorityScore: states the urgency and effort in the breakdown
  only to within 0.005 of the sub-scores, since they are the rounded values.
- Dictionary key order enters only through `KeyOrderOf`. The detector's guarantees hold for every
  key order, so the specific order affects which cycles are listed, but not whether any are.
