/** Ranking tasks by score (highest first, ties in input order) and
    selecting the first few of the ranking. */
module TaskRanking {
  import opened TaskModel
  import opened TaskScore
  import opened StableSort

  /** The sort key: each task's score at the fixed time `now`. */
  function ScoreKey(now: int): Task -> int {
    t => Score(t, now)
  }

  /** Tasks sorted by descending score; tasks with equal scores keep
      their input order. */
  function SortByImportance(tasks: seq<Task>, now: int): (ranked: seq<Task>)
    ensures |ranked| == |tasks|
    ensures multiset(ranked) == multiset(tasks)
    ensures NonIncreasing(ranked, ScoreKey(now))
    ensures SameKeyClasses(ranked, tasks, ScoreKey(now))
  {
    var ranked := SortDescending(tasks, ScoreKey(now));
    assert |ranked| == |multiset(ranked)| == |multiset(tasks)| == |tasks|;
    ranked
  }

  /** Any order of the tasks that is non-increasing in score and keeps
      every class of equal scores in input order is the ranking. */
  lemma RankingIsTheStableDescendingOrder(tasks: seq<Task>, now: int, order: seq<Task>)
    requires NonIncreasing(order, ScoreKey(now))
    requires SameKeyClasses(order, tasks, ScoreKey(now))
    ensures order == SortByImportance(tasks, now)
  {
    var ranked := SortByImportance(tasks, now);
    StableDescendingOrderIsUnique(order, ranked, ScoreKey(now));
  }

  /** Ranking an already ranked list changes nothing. */
  lemma RankingIsIdempotent(tasks: seq<Task>, now: int)
    ensures SortByImportance(SortByImportance(tasks, now), now) == SortByImportance(tasks, now)
  {
    var ranked := SortByImportance(tasks, now);
    RankingIsTheStableDescendingOrder(ranked, now, ranked);
  }

  /** The limit used when the caller gives none. */
  const DefaultLimit: int := 5

  /** End index of the slice `s[:limit]` of a list of length `n`: a limit
      past the end stops at the end, and a negative limit counts back
      from the end, stopping at 0. */
  function SliceEnd(n: nat, limit: int): (e: nat)
    ensures e <= n
  {
    if limit >= 0 then (if limit < n then limit else n)
    else if n + limit > 0 then n + limit
    else 0
  }

  /** The first `limit` tasks of the ranking. */
  function TopPriorityTasks(tasks: seq<Task>, now: int, limit: int): (top: seq<Task>)
    ensures |top| <= |tasks|
    ensures 0 <= limit ==> |top| == if limit < |tasks| then limit else |tasks|
    ensures top == SortByImportance(tasks, now)[..|top|]
    ensures multiset(top) <= multiset(tasks)
    ensures NonIncreasing(top, ScoreKey(now))
    ensures forall i, t :: 0 <= i < |top| && t in multiset(tasks) - multiset(top) ==>
              Score(t, now) <= Score(top[i], now)
  {
    var ranked := SortByImportance(tasks, now);
    var top := ranked[..SliceEnd(|tasks|, limit)];
    PrefixDominatesRest(ranked, |top|, ScoreKey(now));
    top
  }

  /** With the default limit at most five tasks come back. */
  lemma DefaultLimitReturnsAtMostFive(tasks: seq<Task>, now: int)
    ensures |TopPriorityTasks(tasks, now, DefaultLimit)| <= 5
    ensures |tasks| >= 5 ==> |TopPriorityTasks(tasks, now, DefaultLimit)| == 5
  {
  }

  /** No tasks, or a limit of zero, select nothing. */
  lemma EmptySelections(tasks: seq<Task>, now: int, limit: int)
    ensures TopPriorityTasks([], now, limit) == []
    ensures TopPriorityTasks(tasks, now, 0) == []
  {
  }

  /** A limit of at least the number of tasks returns the whole ranking. */
  lemma LargeLimitReturnsRanking(tasks: seq<Task>, now: int, limit: int)
    requires limit >= |tasks|
    ensures TopPriorityTasks(tasks, now, limit) == SortByImportance(tasks, now)
  {
  }

  /** A negative limit drops that many tasks from the end of the ranking,
      as slicing with a negative bound does. */
  lemma NegativeLimitDropsFromTheEnd(tasks: seq<Task>, now: int, limit: int)
    requires limit < 0
    ensures |TopPriorityTasks(tasks, now, limit)| == if |tasks| + limit > 0 then |tasks| + limit else 0
  {
  }
}
