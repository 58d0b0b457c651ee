/** The date span of the chart and the tick policy it selects. */
module Axis {
  import opened Wrappers
  import opened Tasks

  /** The least element of a non-empty sequence (Python's `min`). */
  function Min(s: seq<int>): (m: int)
    requires |s| > 0
    ensures m in s
    ensures forall i :: 0 <= i < |s| ==> m <= s[i]
  {
    if |s| == 1 then s[0]
    else
      var m := Min(s[1..]);
      assert s[1..][0] == s[1];
      if s[0] <= m then s[0] else m
  }

  /** The greatest element of a non-empty sequence (Python's `max`). */
  function Max(s: seq<int>): (m: int)
    requires |s| > 0
    ensures m in s
    ensures forall i :: 0 <= i < |s| ==> s[i] <= m
  {
    if |s| == 1 then s[0]
    else
      var m := Max(s[1..]);
      assert s[1..][0] == s[1];
      if m <= s[0] then s[0] else m
  }

  function Starts(ts: seq<Task>): (r: seq<int>)
    ensures |r| == |ts| && forall i :: 0 <= i < |ts| ==> r[i] == ts[i].start
  {
    seq(|ts|, i requires 0 <= i < |ts| => ts[i].start)
  }

  function Ends(ts: seq<Task>): (r: seq<int>)
    ensures |r| == |ts| && forall i :: 0 <= i < |ts| ==> r[i] == ts[i].end
  {
    seq(|ts|, i requires 0 <= i < |ts| => ts[i].end)
  }

  /** First and last day shown on the time axis, both inclusive. */
  datatype Span = Span(lo: int, hi: int) {
    /** Inclusive day count of the span. */
    function TotalDays(): int { hi - lo + 1 }

    predicate Covers(t: Task) { lo <= t.start && lo <= t.end && t.start <= hi && t.end <= hi }
  }

  /** The span of all task dates: minimum and maximum over every start and every end. It covers
      every task, and each bound is attained by some task's start or end. */
  function SpanOf(ts: seq<Task>): (sp: Span)
    requires |ts| > 0
    ensures forall i :: 0 <= i < |ts| ==> sp.Covers(ts[i])
    ensures exists i :: 0 <= i < |ts| && (sp.lo == ts[i].start || sp.lo == ts[i].end)
    ensures exists i :: 0 <= i < |ts| && (sp.hi == ts[i].start || sp.hi == ts[i].end)
  {
    var all := Starts(ts) + Ends(ts);
    var sp := Span(Min(all), Max(all));
    forall i | 0 <= i < |ts|
      ensures sp.Covers(ts[i])
    {
      assert all[i] == ts[i].start && all[|ts| + i] == ts[i].end;
    }
    sp
  }

  /** A minimum is pinned down by being attained and being a lower bound. */
  lemma MinUnique(s: seq<int>, m: int)
    requires m in s && forall i :: 0 <= i < |s| ==> m <= s[i]
    ensures Min(s) == m
  {
  }

  /** A maximum is pinned down by being attained and being an upper bound. */
  lemma MaxUnique(s: seq<int>, m: int)
    requires m in s && forall i :: 0 <= i < |s| ==> s[i] <= m
    ensures Max(s) == m
  {
  }

  /** For stored (well-formed) tasks, the chart's span runs from the earliest start to the
      latest end, because no task ends before it starts. */
  lemma BuildSpanOfStoredTasks(ts: seq<Task>)
    requires |ts| > 0 && AllWellFormed(ts)
    ensures Build(ts).span == Span(Min(Starts(ts)), Max(Ends(ts)))
  {
    var all := Starts(ts) + Ends(ts);
    var lo := Min(Starts(ts));
    var hi := Max(Ends(ts));
    assert lo in all by {
      var k :| 0 <= k < |ts| && Starts(ts)[k] == lo;
      assert all[k] == lo;
    }
    assert hi in all by {
      var k :| 0 <= k < |ts| && Ends(ts)[k] == hi;
      assert all[|ts| + k] == hi;
    }
    forall i | 0 <= i < |all|
      ensures lo <= all[i] <= hi
    {
      var k := if i < |ts| then i else i - |ts|;
      assert WellFormed(ts[k]);
      assert all[i] == ts[k].start || all[i] == ts[k].end;
      assert Starts(ts)[k] <= all[i] <= Ends(ts)[k];
    }
    MinUnique(all, lo);
    MaxUnique(all, hi);
  }

  /** The span is at least as long as any single task, so at least one day. */
  lemma SpanCoversDurations(ts: seq<Task>)
    requires |ts| > 0
    requires forall i :: 0 <= i < |ts| ==> ts[i].duration == ts[i].end - ts[i].start + 1
    ensures forall i :: 0 <= i < |ts| ==> ts[i].duration <= SpanOf(ts).TotalDays()
    ensures SpanOf(ts).TotalDays() >= 1
  {
    assert SpanOf(ts).Covers(ts[0]);
  }

  /** Appending a task widens the span exactly as far as that task's own dates reach: the new
      bounds are the least and greatest of the old bound and the task's two dates. */
  lemma SpanGrows(ts: seq<Task>, t: Task)
    requires |ts| > 0
    ensures var sp, sq := SpanOf(ts), SpanOf(ts + [t]);
            && sq.lo <= sp.lo && sq.lo <= t.start && sq.lo <= t.end
            && (sq.lo == sp.lo || sq.lo == t.start || sq.lo == t.end)
            && sp.hi <= sq.hi && t.start <= sq.hi && t.end <= sq.hi
            && (sq.hi == sp.hi || sq.hi == t.start || sq.hi == t.end)
  {
    var us := ts + [t];
    var sp := SpanOf(ts);
    var sq := SpanOf(us);
    assert sq.Covers(us[|ts|]) && us[|ts|] == t;
    assert sq.lo <= sp.lo && sp.hi <= sq.hi by {
      var k :| 0 <= k < |ts| && (sp.lo == ts[k].start || sp.lo == ts[k].end);
      var j :| 0 <= j < |ts| && (sp.hi == ts[j].start || sp.hi == ts[j].end);
      assert us[k] == ts[k] && us[j] == ts[j];
      assert sq.Covers(us[k]) && sq.Covers(us[j]);
    }
    assert sq.lo == sp.lo || sq.lo == t.start || sq.lo == t.end by {
      var m :| 0 <= m < |us| && (sq.lo == us[m].start || sq.lo == us[m].end);
      if m < |ts| {
        assert us[m] == ts[m] && sp.Covers(ts[m]);
      }
    }
    assert sq.hi == sp.hi || sq.hi == t.start || sq.hi == t.end by {
      var n :| 0 <= n < |us| && (sq.hi == us[n].start || sq.hi == us[n].end);
      if n < |ts| {
        assert us[n] == ts[n] && sp.Covers(ts[n]);
      }
    }
  }

  /** The three tick policies, from finest to coarsest. */
  datatype Policy = Daily | WeeklyInMonth | AutoMultiscale {
    function Coarseness(): nat {
      match this
      case Daily => 0
      case WeeklyInMonth => 1
      case AutoMultiscale => 2
    }
  }

  /** Longest span, in days, still drawn with one tick per day. */
  const DailyLimit := 8
  /** Longest span, in days, still drawn with month and week ticks. */
  const WeeklyLimit := 32

  /** Picks the policy from the inclusive day count of the span. */
  function Classify(totalDays: int): (p: Policy)
    ensures p == Daily <==> totalDays <= DailyLimit
    ensures p == WeeklyInMonth <==> DailyLimit < totalDays <= WeeklyLimit
    ensures p == AutoMultiscale <==> WeeklyLimit < totalDays
  {
    if totalDays <= DailyLimit then Daily
    else if totalDays <= WeeklyLimit then WeeklyInMonth
    else AutoMultiscale
  }

  /** The policy boundaries: 8 days is daily, 9 and 32 weekly, 33 automatic. */
  lemma ClassifyBoundaries()
    ensures Classify(8) == Daily && Classify(9) == WeeklyInMonth
    ensures Classify(32) == WeeklyInMonth && Classify(33) == AutoMultiscale
  {
  }

  /** A longer span never gets a finer policy. */
  lemma ClassifyMonotone(a: int, b: int)
    requires a <= b
    ensures Classify(a).Coarseness() <= Classify(b).Coarseness()
  {
  }

  /** Where ticks go. */
  datatype Locator =
    | EveryDay        // one tick per day
    | MonthStarts     // one tick at each first of a Gregorian month
    | Mondays         // one tick per week, on Monday
    | Automatic       // left to the plotting library's own long-span rule

  /** How a tick's Gregorian coordinate is labelled, always after conversion to the Jalali date. */
  datatype LabelFormat =
    | WeekdayName     // %A
    | MonthAbbrev     // %b
    | DayOfMonth      // %d
    | FullDate        // %Y-%m-%d

  datatype Ticks = Ticks(locator: Locator, format: LabelFormat)

  /** The axis configuration one policy stands for. `annotations` are the axis positions that
      get a Jalali "month year" caption; `rotation` is the tick label angle in degrees. */
  datatype TickPlan = TickPlan(policy: Policy, major: Ticks, minor: Option<Ticks>,
                               rotation: int, annotations: seq<int>)

  /** The axis configuration for a span. Only the daily policy captions the two ends of the span,
      only the weekly policy has minor ticks, and only the automatic policy tilts its labels,
      by 45 degrees; every label is a Jalali rendering of a Gregorian tick position. */
  function PlanFor(sp: Span): (tp: TickPlan)
    ensures tp.policy == Classify(sp.TotalDays())
    ensures tp.annotations != [] <==> tp.policy == Daily
    ensures tp.annotations != [] ==> tp.annotations == [sp.lo, sp.hi]
    ensures tp.minor.Some? <==> tp.policy == WeeklyInMonth
    ensures tp.rotation == (if tp.policy == AutoMultiscale then 45 else 0)
    ensures tp.major.format == FullDate <==> tp.policy == AutoMultiscale
  {
    match Classify(sp.TotalDays())
    case Daily =>
      TickPlan(Daily, Ticks(EveryDay, WeekdayName), None, 0, [sp.lo, sp.hi])
    case WeeklyInMonth =>
      TickPlan(WeeklyInMonth, Ticks(MonthStarts, MonthAbbrev), Some(Ticks(Mondays, DayOfMonth)), 0, [])
    case AutoMultiscale =>
      TickPlan(AutoMultiscale, Ticks(Automatic, FullDate), None, 45, [])
  }

  /** A generated chart: the task list it was generated from, the span and its axis
      configuration. */
  datatype Chart = Chart(rows: seq<Task>, span: Span, plan: TickPlan)

  /** The chart state `generate_gantt` builds from a non-empty task list. */
  function Build(ts: seq<Task>): (c: Chart)
    requires |ts| > 0
    ensures c.rows == ts
    ensures c.span == SpanOf(ts)
    ensures c.plan == PlanFor(c.span)
    ensures c.plan.policy == Classify(c.span.TotalDays())
  {
    var sp := SpanOf(ts);
    Chart(ts, sp, PlanFor(sp))
  }

  /** Adding a task never makes the axis policy finer. */
  lemma AddNeverFiner(ts: seq<Task>, t: Task)
    requires |ts| > 0
    ensures Build(ts).plan.policy.Coarseness() <= Build(ts + [t]).plan.policy.Coarseness()
  {
    SpanGrows(ts, t);
    ClassifyMonotone(SpanOf(ts).TotalDays(), SpanOf(ts + [t]).TotalDays());
  }
}
