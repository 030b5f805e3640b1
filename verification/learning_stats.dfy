/**
  The arithmetic of `LearningService.get_user_stats` and
  `get_learning_progress`. The database answers are inputs: each COUNT query
  yields the count of its first row, or nothing when it returns no rows; the
  first-activity query yields the whole days elapsed since that activity.
 */
module LearningStats {
  import opened Wrappers

  /** What the five statistics queries returned. */
  datatype StatsRows = StatsRows(
    chats: Option<nat>,
    grammarChecks: Option<nat>,
    vocabularyChecks: Option<nat>,
    activities: Option<nat>,
    daysSinceFirstActivity: Option<int>)

  datatype Stats = Stats(
    totalChats: nat,
    grammarChecks: nat,
    vocabularyChecks: nat,
    totalActivities: nat,
    studyDays: nat,
    totalStudyTime: nat)

  const ChatMinutes: nat := 5
  const CheckMinutes: nat := 3

  const NoStats: Stats := Stats(0, 0, 0, 0, 0, 0)

  /** `get_user_stats`; `None` stands for a query that raised. */
  function UserStats(rows: Option<StatsRows>): (s: Stats)
    ensures rows.None? ==> s == NoStats
    ensures rows.Some? ==>
      && s.totalChats == rows.value.chats.GetOr(0)
      && s.grammarChecks == rows.value.grammarChecks.GetOr(0)
      && s.vocabularyChecks == rows.value.vocabularyChecks.GetOr(0)
      && s.totalActivities == rows.value.activities.GetOr(0)
    ensures s.totalStudyTime == ChatMinutes * s.totalChats + CheckMinutes * (s.grammarChecks + s.vocabularyChecks)
    ensures s.studyDays == 0 <==> rows.None? || rows.value.daysSinceFirstActivity.None?
    ensures rows.Some? && rows.value.daysSinceFirstActivity.Some? ==>
      && s.studyDays >= 1
      && s.studyDays >= rows.value.daysSinceFirstActivity.value
      && (rows.value.daysSinceFirstActivity.value > 1 ==> s.studyDays == rows.value.daysSinceFirstActivity.value)
  {
    match rows
    case None => NoStats
    case Some(r) =>
      var chats := r.chats.GetOr(0);
      var grammar := r.grammarChecks.GetOr(0);
      var vocabulary := r.vocabularyChecks.GetOr(0);
      var days := match r.daysSinceFirstActivity
        case Some(d) => if d > 1 then d else 1
        case None => 0;
      Stats(chats, grammar, vocabulary, r.activities.GetOr(0), days,
        chats * ChatMinutes + grammar * CheckMinutes + vocabulary * CheckMinutes)
  }

  /** The estimated study time is between three and five minutes per recorded exchange. */
  lemma StudyTimeBetweenThreeAndFiveMinutesEach(rows: Option<StatsRows>)
    ensures var s := UserStats(rows);
      && 3 * (s.totalChats + s.grammarChecks + s.vocabularyChecks) <= s.totalStudyTime
      && s.totalStudyTime <= 5 * (s.totalChats + s.grammarChecks + s.vocabularyChecks)
  {
  }

  datatype Level = Beginner | Intermediate | Advanced {
    /** The label shown to the learner. */
    function Name(): string {
      match this
      case Beginner => "초급"
      case Intermediate => "중급"
      case Advanced => "고급"
    }

    function Rank(): nat {
      match this
      case Beginner => 0
      case Intermediate => 1
      case Advanced => 2
    }
  }

  datatype Progress = Progress(level: Level, percentage: real, nextMilestone: string, milestoneProgress: nat)

  const IntermediateThreshold: nat := 10
  const AdvancedThreshold: nat := 50

  /** The progress block of `get_learning_progress` for a total activity count. */
  function ProgressFor(total: nat): (p: Progress)
    ensures p.level == Beginner <==> total < IntermediateThreshold
    ensures p.level == Advanced <==> total >= AdvancedThreshold
    ensures 0.0 <= p.percentage <= 100.0
    ensures p.percentage == 100.0 <==> total >= AdvancedThreshold
    ensures p.percentage == 0.0 <==> total == 0 || total == IntermediateThreshold
    ensures total < AdvancedThreshold ==> p.milestoneProgress == if total < IntermediateThreshold then total else total - IntermediateThreshold
    ensures total >= AdvancedThreshold ==> p.milestoneProgress == AdvancedThreshold
    ensures p.milestoneProgress <= AdvancedThreshold
  {
    if total == 0 then Progress(Beginner, 0.0, "첫 번째 학습 활동", 0)
    else if total < IntermediateThreshold then Progress(Beginner, (total as real / 10.0) * 100.0, "10회 학습 활동", total)
    else if total < AdvancedThreshold then
      Progress(Intermediate, ((total - IntermediateThreshold) as real / 40.0) * 100.0, "50회 학습 활동", total - IntermediateThreshold)
    else Progress(Advanced, 100.0, "모든 마일스톤 달성!", AdvancedThreshold)
  }

  /** More activity never lowers the level. */
  lemma LevelMonotone(a: nat, b: nat)
    requires a <= b
    ensures ProgressFor(a).level.Rank() <= ProgressFor(b).level.Rank()
  {
  }

  /** Within a tier the percentage is the share of the tier's span covered so far. */
  lemma PercentageIsShareOfTier(total: nat)
    requires total < AdvancedThreshold
    ensures var p := ProgressFor(total);
      p.percentage == p.milestoneProgress as real * 100.0 / (if p.level == Beginner then 10.0 else 40.0)
  {
  }

  datatype LearningProgress = LearningProgress(stats: Stats, progress: Progress)

  /** `get_learning_progress`: the tier follows the activity count of the
      statistics, which are all zero when the lookup failed. */
  function GetLearningProgress(rows: Option<StatsRows>): (lp: LearningProgress)
    ensures lp.stats == UserStats(rows)
    ensures lp.progress == ProgressFor(lp.stats.totalActivities)
    ensures rows.None? ==> lp.progress.level == Beginner && lp.progress.percentage == 0.0 && lp.progress.milestoneProgress == 0
  {
    var stats := UserStats(rows);
    LearningProgress(stats, ProgressFor(stats.totalActivities))
  }
}
