# Task priority scoring and ranking, modelled in Dafny

This project models the task-priority module of a task manager. The module
has three parts:

- **Task scorer** (`calculate_task_score`). It gives each task an integer score. The score
  is the sum of five parts:
  - a base score from the priority weight table (LOW 1, MEDIUM 2, HIGH 4, URGENT 6,
    anything else 0), times ten;
  - a due-date band chosen by first match on the whole days left: overdue +35, today +20,
    within 2 days +15, within 7 days +10, later +0;
  - a status penalty: DONE −50, REVIEW −15;
  - a +8 boost, granted once, when any tag is exactly "blocker", "critical" or "urgent";
  - a +5 boost when less than one whole day has passed since the last update.
- **Task ranker** (`sort_tasks_by_importance`). It sorts tasks by descending score. The
  sort is stable, so tasks with equal scores keep their input order.
- **Top-N selector** (`get_top_priority_tasks`). It returns the first `limit` tasks of the
  ranking. The default limit is 5.

Files and modules:

- `task_model.dfy` (`TaskModel`): the task record. `Priority` and `Status` are closed
  datatypes. Each has a fallback arm (`UnknownPriority`, `OtherStatus`), so the silent
  fallbacks of the source are kept.
- `task_score.dfy` (`TaskScore`): the scorer, one function per part, plus lemmas.
- `stable_sort.dfy` (`StableSort`): a generic stable sort into descending key order.
  Stability is stated with `KeyClass`, the subsequence of elements that have one given
  key. The output is stable when every such class matches the same class of the input.
  This holds even when the list contains duplicate tasks.
- `task_ranking.dfy` (`TaskRanking`): the ranker and the top-N selector.

Modelling decisions:

- **Time.** Points in time are integer seconds. A day is 86400 seconds. The source takes
  the `.days` of a difference of two datetimes, which rounds towards negative infinity.
  Dafny's `/` with a positive divisor also rounds towards negative infinity, so
  `DayDifference` gives the same result, also for negative differences (overdue tasks,
  updates later than now).
- **The clock.** The source reads the clock twice per task, at lines 61 and 82. The model
  uses a single `now` parameter for all of these reads, across a whole ranking.
- **The sort.** It is an insertion sort. `StableSort.StableDescendingOrderIsUnique` proves
  that only one order is both non-increasing and stable. So any correct stable sort,
  including Python's `sorted(..., reverse=True)`, returns the same list as this model.
- **Score pairs.** The source builds `(score, task)` pairs so that each score is computed
  once. The model uses the key function `ScoreKey(now)` instead. In a pure model, how often
  a score is computed makes no difference to the result.
- **Negative limit.** The model reproduces it as written: slicing with a negative bound
  drops that many tasks from the end of the ranking.

## Model

| member | source | states |
|---|---|---|
| TaskScore.BaseScore | use-cases/code-algorithms/python/TaskManager/task_priority.py:49-57 | the base score is one of 0, 10, 20, 40, 60; it is 10/20/40/60 for LOW/MEDIUM/HIGH/URGENT; it is 0 exactly for an unrecognised priority |
| TaskScore.BaseScoreOrdersPriorities | use-cases/code-algorithms/python/TaskManager/task_priority.py:48-57 | a more urgent priority has a strictly higher base score; an unknown priority scores below LOW |
| TaskScore.DayDifference | use-cases/code-algorithms/python/TaskManager/task_priority.py:61 | the whole-day difference d satisfies d·day ≤ (to − from) < (d+1)·day, which means it rounds towards negative infinity |
| TaskScore.DueBandBonus | use-cases/code-algorithms/python/TaskManager/task_priority.py:62-69 | the first-match chain gives exactly one of five disjoint bands: +35 iff overdue, +20 iff 0 days, +15 iff 1–2 days, +10 iff 3–7 days, 0 iff more than 7 days |
| TaskScore.DueBandBonusAntitone | use-cases/code-algorithms/python/TaskManager/task_priority.py:59-69 | fewer days until the due date never earns a smaller bonus |
| TaskScore.DueBonus | use-cases/code-algorithms/python/TaskManager/task_priority.py:60-69 | no due date adds exactly 0; a due date in the past adds 35; a due date less than a day ahead adds 20; one at least 8 days ahead adds 0; the bonus always lies in 0..35 |
| TaskScore.DueBonusBands | use-cases/code-algorithms/python/TaskManager/task_priority.py:60-69 | with a due date, the bonus is the band of the whole days left; in seconds from now: before now gives 35, the first day gives 20, days 1–2 give 15, days 3–7 give 10, from day 8 on gives 0 |
| TaskScore.StatusAdjustment | use-cases/code-algorithms/python/TaskManager/task_priority.py:72-75 | the adjustment is −50 iff DONE, −15 iff REVIEW, 0 iff the status is neither |
| TaskScore.AnyCriticalTag | use-cases/code-algorithms/python/TaskManager/task_priority.py:78 | the left-to-right scan is true iff some tag is exactly "blocker", "critical" or "urgent" |
| TaskScore.TagBoost | use-cases/code-algorithms/python/TaskManager/task_priority.py:78-79 | the boost is 0 or 8, and it is 8 iff some tag is a critical tag; it is never added twice |
| TaskScore.TagBoostDependsOnlyOnTagSet | use-cases/code-algorithms/python/TaskManager/task_priority.py:78-79 | two tag lists with the same elements (any order, any duplicates) get the same boost |
| TaskScore.RecencyBoost | use-cases/code-algorithms/python/TaskManager/task_priority.py:82-84 | the boost is 5 iff less than one day separates the update from now, and 0 otherwise; an update later than now always gets it |
| TaskScore.Score | use-cases/code-algorithms/python/TaskManager/task_priority.py:56-86 | every score lies in −50..108; a DONE task scores at most 58 |
| TaskScore.AddingDueDateAddsItsBand | use-cases/code-algorithms/python/TaskManager/task_priority.py:59-69 | giving a task without a due date any due date raises its score by exactly that date's band bonus, so it never lowers the score |
| TaskScore.DueSoonerNeverScoresLower | use-cases/code-algorithms/python/TaskManager/task_priority.py:59-69 | moving the due date earlier, all else equal, never lowers the score |
| TaskScore.DoneScoresFiftyLess | use-cases/code-algorithms/python/TaskManager/task_priority.py:71-75 | a DONE task scores exactly 50 less than the same task in any status-neutral state |
| TaskScore.ReviewScoresFifteenLess | use-cases/code-algorithms/python/TaskManager/task_priority.py:71-75 | a REVIEW task scores exactly 15 less than the same task in any status-neutral state |
| TaskScore.ScoreIgnoresTagOrderAndDuplicates | use-cases/code-algorithms/python/TaskManager/task_priority.py:77-79 | replacing the tags with a list of the same elements (reordered or duplicated) leaves the score unchanged |
| TaskScore.HighUrgentDueTomorrowScores68 | use-cases/code-algorithms/python/TaskManager/task_priority.py:48-86 | a HIGH, ACTIVE task due one day from now, tagged "urgent" and updated now, scores 40+15+0+8+5 = 68 |
| StableSort.Insert | use-cases/code-algorithms/python/TaskManager/task_priority.py:92 | inserting into a non-increasing list keeps it non-increasing, adds exactly the one element, and puts it before the other elements with its key |
| StableSort.SortDescending | use-cases/code-algorithms/python/TaskManager/task_priority.py:92 | the result is a permutation of the input, keys never increase, and each class of equal keys keeps its input order |
| StableSort.StableDescendingOrderIsUnique | use-cases/code-algorithms/python/TaskManager/task_priority.py:92 | two non-increasing lists with the same classes of equal keys are equal, so a stable descending order is unique |
| StableSort.PrefixDominatesRest | use-cases/code-algorithms/python/TaskManager/task_priority.py:98 | in a non-increasing list, no element outside a prefix has a larger key than any element of the prefix |
| TaskRanking.SortByImportance | use-cases/code-algorithms/python/TaskManager/task_priority.py:88-93 | the ranking is a permutation of the tasks, its scores never increase, and tasks with equal scores keep their input order |
| TaskRanking.RankingIsTheStableDescendingOrder | use-cases/code-algorithms/python/TaskManager/task_priority.py:88-93 | every order of the tasks that is non-increasing in score and stable on ties is the ranking |
| TaskRanking.RankingIsIdempotent | use-cases/code-algorithms/python/TaskManager/task_priority.py:88-93 | ranking an already ranked list returns it unchanged |
| TaskRanking.TopPriorityTasks | use-cases/code-algorithms/python/TaskManager/task_priority.py:95-98 | the result is a prefix of the ranking; for limit ≥ 0 its length is min(limit, number of tasks); it is a sub-multiset of the tasks; no task left out scores higher than any task selected |
| TaskRanking.DefaultLimitReturnsAtMostFive | use-cases/code-algorithms/python/TaskManager/task_priority.py:95-98 | with the default limit at most five tasks are returned, and exactly five when at least five are given |
| TaskRanking.EmptySelections | use-cases/code-algorithms/python/TaskManager/task_priority.py:95-98 | no tasks, or a limit of 0, gives an empty selection |
| TaskRanking.LargeLimitReturnsRanking | use-cases/code-algorithms/python/TaskManager/task_priority.py:95-98 | a limit at least the number of tasks returns the whole ranking, with no padding |
| TaskRanking.NegativeLimitDropsFromTheEnd | use-cases/code-algorithms/python/TaskManager/task_priority.py:98 | a negative limit −m returns the ranking without its last m tasks, or nothing when m is at least the number of tasks |

## Left out

- Reading the wall clock (`datetime.now()`, lines 61 and 82) is not modelled. The current time is the parameter `now`. Every clock read made while scoring one task, and while ranking or selecting a whole list, is that one value. The source reads the clock twice per task, so a ranking of n tasks reads it 2n times at slightly different instants; the model scores every task at the same instant.
- TaskScore.DueBonus: its own contract states the no-date, overdue, due-today and eight-days-or-later cases; the 1–2 day (+15) and 3–7 day (+10) bands are stated by `TaskScore.DueBonusBands`.
- Sub-second precision of timestamps is not modelled. Timestamps are whole seconds. Whole-day rounding is the same as long as both times are whole seconds.
- Calendar semantics (time zones, daylight saving, leap seconds) are not modelled. A day is always 86400 seconds, as in arithmetic on naive datetimes.
- The `models` module (`Task`, `TaskStatus`, `TaskPriority`, line 3) is not part of this model. Its types are closed datatypes here, each with a fallback arm.
- The `AttributeError` for a task missing a field is not modelled. A Dafny record always has all of its fields.
- The docstring's example result of 63 (lines 35-38) is not modelled, because it depends on the date the example is run. `TaskScore.HighUrgentDueTomorrowScores68` proves the score of that task at a fixed distance from its due date.
- The `(score, task)` pairs built at line 90 are not modelled as a separate list. The sort uses the score as its key function, which gives the same result.
