/** `calculate_timeline_risk`: story-point totals over the nodes, the completion rate, and a risk
    level from comparing the remaining points with an assumed velocity of 5 points a week over
    the days left before the target date. */
module TimelineRisk {
  import opened Wrappers
  import opened JiraRecords
  import opened DependencyGraph
  import opened Dates

  datatype RiskLevel = High | Medium | Low | Unknown

  /** The returned assessment; `completionRate` before rounding. */
  datatype Risk = Risk(level: RiskLevel, confidence: int, completionRate: real, daysRemaining: int,
                       totalPoints: int, completedPoints: int, remainingPoints: int)

  /** The story points of `keys`, summed. */
  function SumPoints(g: Graph, keys: seq<string>): int
    requires forall i :: 0 <= i < |keys| ==> keys[i] in g.nodes
  {
    if keys == [] then 0 else g.nodes[keys[0]].storyPoints + SumPoints(g, keys[1..])
  }

  /** The story points of the finished nodes among `keys`. */
  function FinishedPoints(g: Graph, keys: seq<string>): int
    requires forall i :: 0 <= i < |keys| ==> keys[i] in g.nodes
  {
    if keys == [] then 0
    else (if IsFinished(g.nodes[keys[0]].status) then g.nodes[keys[0]].storyPoints else 0) + FinishedPoints(g, keys[1..])
  }

  /** The story points of the unfinished nodes among `keys`. */
  function OpenPoints(g: Graph, keys: seq<string>): int
    requires forall i :: 0 <= i < |keys| ==> keys[i] in g.nodes
  {
    if keys == [] then 0
    else (if IsFinished(g.nodes[keys[0]].status) then 0 else g.nodes[keys[0]].storyPoints) + OpenPoints(g, keys[1..])
  }

  /** `completed_points / total_points * 100`, or 0 when there are no points. */
  function CompletionRate(completed: int, total: int): (r: real)
    ensures total <= 0 ==> r == 0.0
    ensures 0 <= completed <= total ==> 0.0 <= r <= 100.0
    ensures 0 < total && completed == total ==> r == 100.0
  {
    if total > 0 then
      var share := completed as real / total as real;
      assert share * total as real == completed as real;
      share * 100.0
    else 0.0
  }

  /** The comparison chain: 5 points a week over the days left, and 0.8 of that. */
  function Classify(remaining: int, days: int): (r: (RiskLevel, int))
    ensures r.0 != Unknown
    ensures r.1 == match r.0 case High => 30 case Medium => 60 case Low => 85 case Unknown => 0
  {
    var estimated := days as real / 7.0 * 5.0;
    if remaining as real > estimated then (High, 30)
    else if remaining as real > estimated * 0.8 then (Medium, 60)
    else (Low, 85)
  }

  /** The assessment for `targetDate`, read against the clock `now`. */
  function CalculateTimelineRisk(g: Graph, targetDate: string, now: Clock): (r: Risk)
    requires WellFormed(g) && ValidDate(now.today)
    ensures r.level == Unknown <==> DaysRemaining(targetDate, now).None?
    ensures r.level == Unknown ==> r.confidence == 0 && r.daysRemaining == 0
    ensures r.level != Unknown ==>
              Some(r.daysRemaining) == DaysRemaining(targetDate, now)
              && (r.level, r.confidence) == Classify(r.remainingPoints, r.daysRemaining)
    ensures r.remainingPoints == r.totalPoints - r.completedPoints
  {
    var total := SumPoints(g, g.order);
    var completed := FinishedPoints(g, g.order);
    var rate := CompletionRate(completed, total);
    match DaysRemaining(targetDate, now)
    case None => Risk(Unknown, 0, rate, 0, total, completed, total - completed)
    case Some(days) =>
      var (level, confidence) := Classify(total - completed, days);
      Risk(level, confidence, rate, days, total, completed, total - completed)
  }

  /** Every point is either finished or open. */
  lemma {:induction false} PointsSplit(g: Graph, keys: seq<string>)
    requires forall i :: 0 <= i < |keys| ==> keys[i] in g.nodes
    ensures SumPoints(g, keys) == FinishedPoints(g, keys) + OpenPoints(g, keys)
  {
    if keys != [] {
      PointsSplit(g, keys[1..]);
    }
  }

  /** With no negative story points, the finished points are between zero and the total. */
  lemma {:induction false} FinishedWithinTotal(g: Graph, keys: seq<string>)
    requires forall i :: 0 <= i < |keys| ==> keys[i] in g.nodes && g.nodes[keys[i]].storyPoints >= 0
    ensures 0 <= FinishedPoints(g, keys) <= SumPoints(g, keys)
  {
    if keys != [] {
      FinishedWithinTotal(g, keys[1..]);
    }
  }

  /** The thresholds in whole numbers: HIGH exactly when `7 * remaining > 5 * days`, MEDIUM
      exactly when not HIGH and `7 * remaining > 4 * days`, LOW otherwise (with a negative day
      count the second bound is the larger one); the confidence follows the level. */
  lemma ClassifyThresholds(remaining: int, days: int)
    ensures Classify(remaining, days).0 == High <==> 7 * remaining > 5 * days
    ensures Classify(remaining, days).0 == Medium <==> 7 * remaining <= 5 * days && 7 * remaining > 4 * days
    ensures Classify(remaining, days).0 == Low <==> 7 * remaining <= 5 * days && 7 * remaining <= 4 * days
    ensures Classify(remaining, days).1 == match Classify(remaining, days).0
                                           case High => 30 case Medium => 60 case Low => 85 case Unknown => 0
  {
    var estimated := days as real / 7.0 * 5.0;
    assert remaining as real > estimated <==> 7 * remaining > 5 * days;
    assert remaining as real > estimated * 0.8 <==> 7 * remaining > 4 * days;
  }

  function Severity(level: RiskLevel): nat {
    match level
    case Low => 0
    case Medium => 1
    case High => 2
    case Unknown => 0
  }

  /** More remaining points, or fewer days, never lower the risk. */
  lemma ClassifyMonotone(remaining: int, remaining': int, days: int, days': int)
    requires remaining <= remaining' && days' <= days
    ensures Severity(Classify(remaining, days).0) <= Severity(Classify(remaining', days').0)
  {
    ClassifyThresholds(remaining, days);
    ClassifyThresholds(remaining', days');
  }

  /** Past the target date, any amount of remaining work, even none, is HIGH. */
  lemma OverdueIsHigh(remaining: int, days: int)
    requires days < 0 && remaining >= 0
    ensures Classify(remaining, days) == (High, 30)
  {
    ClassifyThresholds(remaining, days);
  }

  /** A target that does not parse gives UNKNOWN with confidence 0 and 0 days; the totals are
      reported all the same, and the remaining points are the open points. */
  lemma RiskFields(g: Graph, targetDate: string, now: Clock)
    requires WellFormed(g) && ValidDate(now.today)
    ensures var r := CalculateTimelineRisk(g, targetDate, now);
      && (r.level == Unknown <==> ParseDate(targetDate) == None)
      && (r.level == Unknown ==> r.confidence == 0 && r.daysRemaining == 0)
      && r.totalPoints == SumPoints(g, g.order)
      && r.completedPoints == FinishedPoints(g, g.order)
      && r.remainingPoints == r.totalPoints - r.completedPoints == OpenPoints(g, g.order)
      && (r.totalPoints <= 0 ==> r.completionRate == 0.0)
  {
    PointsSplit(g, g.order);
  }

  /** The day count follows the ordinals of the target and of today. */
  lemma RiskDays(g: Graph, targetDate: string, now: Clock, t: Date)
    requires WellFormed(g) && ValidDate(now.today)
    requires ParseDate(targetDate) == Some(t)
    ensures var r := CalculateTimelineRisk(g, targetDate, now);
      && r.daysRemaining == Ordinal(t) - Ordinal(now.today) - (if now.microsOfDay > 0 then 1 else 0)
      && (r.level, r.confidence) == Classify(r.remainingPoints, r.daysRemaining)
  {
  }

  /** 100 points with 40 finished, the target 14 days ahead: 60 points against a capacity of 10
      is HIGH with confidence 30, whether the count is 14 (at midnight) or 13 (later in the day). */
  lemma FourteenDaysExample(g: Graph, targetDate: string, now: Clock, t: Date)
    requires WellFormed(g) && ValidDate(now.today)
    requires SumPoints(g, g.order) == 100 && FinishedPoints(g, g.order) == 40
    requires ParseDate(targetDate) == Some(t) && Ordinal(t) == Ordinal(now.today) + 14
    ensures var r := CalculateTimelineRisk(g, targetDate, now);
      && r.level == High && r.confidence == 30 && r.remainingPoints == 60
      && r.completionRate == 40.0
      && r.daysRemaining == (if now.microsOfDay == 0 then 14 else 13)
  {
    ClassifyThresholds(60, 14);
    ClassifyThresholds(60, 13);
  }

  /** The date text "not-a-date" gives UNKNOWN, confidence 0 and 0 days. */
  lemma NotADateIsUnknown(g: Graph, now: Clock)
    requires WellFormed(g) && ValidDate(now.today)
    ensures var r := CalculateTimelineRisk(g, "not-a-date", now);
      r.level == Unknown && r.confidence == 0 && r.daysRemaining == 0
  {
    NotADate();
  }
}
