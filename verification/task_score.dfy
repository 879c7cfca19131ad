/** The task scorer: one integer per task, built from a priority weight,
    a due-date band, a status penalty, a critical-tag boost and a recency
    boost. The current time `now` is a parameter; the scorer reads no clock. */
module TaskScore {
  import opened TaskModel

  /** The weight table; a priority outside the table weighs 0. */
  function PriorityWeight(p: Priority): nat {
    match p
    case Low => 1
    case Medium => 2
    case High => 4
    case Urgent => 6
    case UnknownPriority => 0
  }

  /** Base score: ten points per unit of weight. */
  function BaseScore(p: Priority): (b: int)
    ensures b in {0, 10, 20, 40, 60}
    ensures b == 0 <==> p == UnknownPriority
    ensures p == Low ==> b == 10
    ensures p == Medium ==> b == 20
    ensures p == High ==> b == 40
    ensures p == Urgent ==> b == 60
  {
    PriorityWeight(p) * 10
  }

  /** A more urgent priority always has a strictly higher base score, and
      an unknown priority scores below every known one. */
  lemma BaseScoreOrdersPriorities()
    ensures BaseScore(UnknownPriority) < BaseScore(Low) < BaseScore(Medium)
    ensures BaseScore(Medium) < BaseScore(High) < BaseScore(Urgent)
  {
  }

  /** Whole days from `from` to `to`, rounded towards negative infinity, as
      the day component of a difference of two timestamps. */
  function DayDifference(from: int, to: int): (d: int)
    ensures d * Day <= to - from < d * Day + Day
  {
    (to - from) / Day
  }

  /** The due-date band chosen by first match on the whole days left. */
  function DueBandBonus(daysUntilDue: int): (b: int)
    ensures b in {0, 10, 15, 20, 35}
    ensures b == 35 <==> daysUntilDue < 0
    ensures b == 20 <==> daysUntilDue == 0
    ensures b == 15 <==> 1 <= daysUntilDue <= 2
    ensures b == 10 <==> 3 <= daysUntilDue <= 7
    ensures b == 0 <==> daysUntilDue > 7
  {
    if daysUntilDue < 0 then 35
    else if daysUntilDue == 0 then 20
    else if daysUntilDue <= 2 then 15
    else if daysUntilDue <= 7 then 10
    else 0
  }

  /** Fewer days left never earns a smaller band bonus. */
  lemma DueBandBonusAntitone(fewer: int, more: int)
    requires fewer <= more
    ensures DueBandBonus(fewer) >= DueBandBonus(more)
  {
  }

  /** The due-date adjustment: nothing without a due date, otherwise the
      band of the whole days from `now` until the due date. */
  function DueBonus(due: Option<int>, now: int): (b: int)
    ensures due.None? ==> b == 0
    ensures due.Some? && due.value < now ==> b == 35
    ensures due.Some? && now <= due.value < now + Day ==> b == 20
    ensures due.Some? && now + 8 * Day <= due.value ==> b == 0
    ensures 0 <= b <= 35
  {
    match due
    case None => 0
    case Some(d) => DueBandBonus(DayDifference(now, d))
  }

  /** All five due-date bands, stated on the time left until the due
      date: whole days are counted from `now`, so each band is a range of
      seconds. */
  lemma DueBonusBands(due: int, now: int)
    ensures DueBonus(Some(due), now) == DueBandBonus(DayDifference(now, due))
    ensures due < now ==> DueBonus(Some(due), now) == 35
    ensures now <= due < now + Day ==> DueBonus(Some(due), now) == 20
    ensures now + Day <= due < now + 3 * Day ==> DueBonus(Some(due), now) == 15
    ensures now + 3 * Day <= due < now + 8 * Day ==> DueBonus(Some(due), now) == 10
    ensures now + 8 * Day <= due ==> DueBonus(Some(due), now) == 0
  {
  }

  /** Status penalty: DONE and REVIEW are mutually exclusive branches. */
  function StatusAdjustment(s: Status): (a: int)
    ensures a == -50 <==> s == Done
    ensures a == -15 <==> s == Review
    ensures a == 0 <==> IsNeutralStatus(s)
  {
    if s == Done then -50
    else if s == Review then -15
    else 0
  }

  /** The tags that earn the boost, compared exactly (case-sensitive). */
  predicate IsCriticalTag(tag: string) {
    tag == "blocker" || tag == "critical" || tag == "urgent"
  }

  /** Whether some element of `tags` is a critical tag, scanning left to
      right as a generator over the tags does. */
  function AnyCriticalTag(tags: seq<string>): (found: bool)
    ensures found <==> exists i :: 0 <= i < |tags| && IsCriticalTag(tags[i])
  {
    if |tags| == 0 then false
    else IsCriticalTag(tags[0]) || AnyCriticalTag(tags[1..])
  }

  /** The critical-tag boost, granted at most once. */
  function TagBoost(tags: seq<string>): (b: int)
    ensures b == 0 || b == 8
    ensures b == 8 <==> exists tag :: tag in tags && IsCriticalTag(tag)
  {
    if AnyCriticalTag(tags) then 8 else 0
  }

  /** The boost only sees which tags occur: reordering the tags or
      repeating one leaves it unchanged. */
  lemma TagBoostDependsOnlyOnTagSet(a: seq<string>, b: seq<string>)
    requires forall tag :: tag in a <==> tag in b
    ensures TagBoost(a) == TagBoost(b)
  {
  }

  /** The recency boost: granted when fewer than one whole day separates
      the last update from `now`, which includes an update later than `now`. */
  function RecencyBoost(updatedAt: int, now: int): (b: int)
    ensures b == 0 || b == 5
    ensures b == 5 <==> now - updatedAt < Day
    ensures updatedAt >= now ==> b == 5
  {
    if DayDifference(updatedAt, now) < 1 then 5 else 0
  }

  /** The composite score of `task` at time `now`. */
  function Score(task: Task, now: int): (score: int)
    ensures -50 <= score <= 108
    ensures task.status == Done ==> score <= 58
  {
    BaseScore(task.priority)
    + DueBonus(task.dueDate, now)
    + StatusAdjustment(task.status)
    + TagBoost(task.tags)
    + RecencyBoost(task.updatedAt, now)
  }

  /** Giving a task without a due date some due date raises its score by
      exactly that date's band bonus, so it never lowers the score. */
  lemma AddingDueDateAddsItsBand(task: Task, now: int, due: int)
    requires task.dueDate.None?
    ensures Score(task.(dueDate := Some(due)), now) >= Score(task, now)
    ensures Score(task.(dueDate := Some(due)), now) - Score(task, now)
            == DueBandBonus(DayDifference(now, due))
  {
  }

  /** Higher score for tasks due sooner: moving the due date earlier,
      everything else equal, never lowers the score. */
  lemma DueSoonerNeverScoresLower(task: Task, now: int, sooner: int, later: int)
    requires sooner <= later
    ensures Score(task.(dueDate := Some(sooner)), now)
            >= Score(task.(dueDate := Some(later)), now)
  {
    var ds := DayDifference(now, sooner);
    var dl := DayDifference(now, later);
    assert ds <= dl;
    DueBandBonusAntitone(ds, dl);
  }

  /** A DONE task scores exactly 50 less than the same task in any
      status-neutral state. */
  lemma DoneScoresFiftyLess(task: Task, now: int, neutral: Status)
    requires IsNeutralStatus(neutral)
    ensures Score(task.(status := Done), now) == Score(task.(status := neutral), now) - 50
  {
  }

  /** A task in REVIEW scores exactly 15 less than the same task in any
      status-neutral state. */
  lemma ReviewScoresFifteenLess(task: Task, now: int, neutral: Status)
    requires IsNeutralStatus(neutral)
    ensures Score(task.(status := Review), now) == Score(task.(status := neutral), now) - 15
  {
  }

  /** Tags with the same elements give the same score: order and
      duplicates do not matter. */
  lemma ScoreIgnoresTagOrderAndDuplicates(task: Task, now: int, tags: seq<string>)
    requires forall tag :: tag in tags <==> tag in task.tags
    ensures Score(task.(tags := tags), now) == Score(task, now)
  {
    TagBoostDependsOnlyOnTagSet(tags, task.tags);
  }

  /** A HIGH task due one day from now, ACTIVE, tagged "urgent" and updated
      now scores 40 + 15 + 0 + 8 + 5. */
  lemma HighUrgentDueTomorrowScores68(now: int)
    ensures Score(Task(High, Some(now + Day), Active, ["urgent"], now), now) == 68
  {
    assert "urgent" in ["urgent"];
  }
}
