/**
 What a threshold report says of the raw history it was computed from: validation, resolution,
 scan, and the sorted report together.
 */
module ThresholdHistory {
  import opened Wrappers
  import opened Sorting
  import opened Thresholds

  // The rows are accepted and follow one another at the same distance.
  ghost predicate Usable(rows: seq<Row>, now: real) {
    Acceptable(rows, now) && exists step: int :: EvenlySpaced(rows, now, step)
  }

  predicate EvenlySpaced(rows: seq<Row>, now: real, step: int)
    requires Acceptable(rows, now)
  {
    |rows| >= 2 && forall i :: 0 < i < |rows| ==> rows[i].time.value - rows[i - 1].time.value == step as real
  }

  function RawSamples(rows: seq<Row>, now: real, rule: Rule): (s: seq<Sample>)
    requires Acceptable(rows, now)
    ensures |s| == |rows|
  {
    seq(|rows|, i requires 0 <= i < |rows| =>
      Sample(rows[i].time.value.Floor, Classify(rows[i].values, rule), Reading(rows[i].values, rule)))
  }

  // The interval of the block that opens at `i`, with its flags in terms of the levels alone.
  ghost predicate Tells(s: seq<Sample>, rule: Rule, latestUnknown: bool, i: nat, v: Interval) {
    && i < |s| && Opening(s, i)
    && v.rule == rule.key && v.first == s[i].stamp
    && (v.hasGaps <==> UnknownBeforeEnd(s, i + 1))
    && (v.onsetConfirmed <==> i > 0 && s[i - 1].level == Normal)
    && v.state == if EndFrom(s, i + 1, |s|) < |s| then Cleared else if latestUnknown then Unsure else Ongoing
  }

  // The latest sample is unknown, or a reading of the rule is stale.
  predicate RawLatestUnknown(rows: seq<Row>, now: real, rule: Rule, stale: set<string>)
    requires Acceptable(rows, now)
  {
    || rows == []
    || RawSamples(rows, now, rule)[|rows| - 1].level == Unknown
    || rule.value in stale
    || (rule.total.Some? && rule.total.value in stale)
  }

  lemma SamplesFromRows(rows: seq<Row>, now: real, h: Option<History>, rule: Rule)
    requires ReadFrom(rows, now, h) && Acceptable(rows, now)
    ensures Samples(h.value.points, rule) == RawSamples(rows, now, rule)
    ensures forall i, j :: 0 <= i < j < |rows| ==> h.value.points[i].timestamp < h.value.points[j].timestamp
  {
    var points := h.value.points;
    hide Classify, Reading;
    forall i | 0 <= i < |rows| ensures points[i].timestamp == rows[i].time.value.Floor {
      assert points[i].timestamp as real == rows[i].time.value;
    }
    forall i, j | 0 <= i < j < |rows| ensures points[i].timestamp < points[j].timestamp {
      assert rows[i].time.value < rows[j].time.value;
    }
  }

  lemma ResolutionFromRows(rows: seq<Row>, now: real, h: Option<History>)
    requires ReadFrom(rows, now, h)
    ensures HistoryAvailable(h) <==> Usable(rows, now)
    ensures HistoryAvailable(h) ==> Acceptable(rows, now) && Uniform(h.value.points, h.value.resolution.value)
  {
    if Acceptable(rows, now) {
      var points := h.value.points;
      forall step: int ensures EvenlySpaced(rows, now, step) <==> Uniform(points, step) {
        SameSpacing(rows, now, points, step);
      }
      if HistoryAvailable(h) { assert EvenlySpaced(rows, now, h.value.resolution.value); }
      if step :| EvenlySpaced(rows, now, step) { assert h.value.resolution == Some(step); }
    }
  }

  lemma SameSpacing(rows: seq<Row>, now: real, points: seq<Point>, step: int)
    requires Acceptable(rows, now) && |points| == |rows|
    requires forall i :: 0 <= i < |rows| ==> points[i].timestamp as real == rows[i].time.value
    ensures EvenlySpaced(rows, now, step) <==> Uniform(points, step)
  {
    forall i | 0 < i < |rows|
      ensures rows[i].time.value - rows[i - 1].time.value == step as real <==> StepAt(points, i) == step
    {
      assert points[i].timestamp as real - points[i - 1].timestamp as real == StepAt(points, i) as real;
    }
  }

  // The samples have the levels that the readings of their rows give.
  ghost predicate LevelsOfRows(rows: seq<Row>, now: real, rule: Rule)
    requires Acceptable(rows, now)
  {
    forall i :: 0 <= i < |rows| ==> IsLevel(rule.key, rows[i].values, RawSamples(rows, now, rule)[i].level)
  }

  lemma RawLevels(rows: seq<Row>, now: real, rule: Rule)
    requires Acceptable(rows, now) && rule in [CPU_RULE, MEMORY_RULE, STORAGE_RULE]
    ensures LevelsOfRows(rows, now, rule)
  {
    forall i | 0 <= i < |rows| ensures IsLevel(rule.key, rows[i].values, RawSamples(rows, now, rule)[i].level) {
      RuleLevels(rule, rows[i].values);
      hide IsLevel, Classify, Reading;
    }
  }

  // The intervals of a rule, from the raw rows: one for each opening in order when the rows are
  // accepted and evenly spaced, none otherwise.
  lemma IntervalsOfRawHistory(rows: seq<Row>, now: real, h: Option<History>, rule: Rule, current: Values, stale: set<string>,
                              report: RuleReport, settled: seq<Interval>)
    requires ReadFrom(rows, now, h) && RuleReported(rule, current, h, stale, report, settled)
    requires rule in [CPU_RULE, MEMORY_RULE, STORAGE_RULE]
    ensures IsLevel(rule.key, current, report.current)
    ensures !Usable(rows, now) ==> settled == [] && report.history == Unknown
    ensures Usable(rows, now) ==> LevelsOfRows(rows, now, rule)
    ensures Usable(rows, now) ==>
      var s, unsure := RawSamples(rows, now, rule), RawLatestUnknown(rows, now, rule, stale);
      && report.history == (if unsure then Unknown else s[|s| - 1].level)
      && exists at :: Openings(s, |s|, at) && |at| == |settled| && forall k :: 0 <= k < |at| ==> Tells(s, rule, unsure, at[k], settled[k])
  {
    hide ReadFrom, Samples, RawSamples, Acceptable, Uniform, Usable, RuleIntervals, Tells, Openings, IsLevel, Classify, LevelsOfRows;
    ResolutionFromRows(rows, now, h);
    RuleLevels(rule, current);
    if HistoryAvailable(h) {
      SamplesFromRows(rows, now, h, rule);
      RawLevels(rows, now, rule);
      var points := h.value.points;
      RuleTells(points, rule, h.value.resolution.value, LatestUnknown(points, rule, stale), settled);
    }
  }

  lemma RuleTells(points: seq<Point>, rule: Rule, step: int, unsure: bool, settled: seq<Interval>)
    requires Uniform(points, step) && (forall i, j :: 0 <= i < j < |points| ==> points[i].timestamp < points[j].timestamp)
    requires RuleIntervals(points, rule, step, unsure, settled)
    ensures var s := Samples(points, rule);
            exists at :: Openings(s, |s|, at) && |at| == |settled| && forall k :: 0 <= k < |at| ==> Tells(s, rule, unsure, at[k], settled[k])
  {
    hide Samples, Uniform, Tells, Settled, Describes;
    var at, intervals :|
      Reported(Samples(points, rule), |points|, rule.key, step, at, intervals) && settled == Settled(intervals, unsure);
    hide Openings;
    forall k | 0 <= k < |at| ensures Tells(Samples(points, rule), rule, unsure, at[k], settled[k]) {
      SettledTells(points, rule, step, unsure, at, intervals, k);
    }
  }

  lemma DescribedState(s: seq<Sample>, rule: string, step: int, i: nat, v: Interval)
    requires i < |s| && s[i].Elevated() && Describes(s, |s|, rule, step, i, v)
    ensures v.rule == rule && v.first == s[i].stamp
    ensures v.state == if EndFrom(s, i + 1, |s|) < |s| then Cleared else Ongoing
  {
    hide DisturbedIn, CriticalIn, Changes, Gap, LastOf;
  }

  lemma IntervalState(s: seq<Sample>, rule: string, step: int, at: seq<nat>, intervals: seq<Interval>, k: nat)
    requires Reported(s, |s|, rule, step, at, intervals) && k < |intervals|
    ensures at[k] < |s| && Opening(s, at[k]) && intervals[k].rule == rule && intervals[k].first == s[at[k]].stamp
    ensures intervals[k].state == if EndFrom(s, at[k] + 1, |s|) < |s| then Cleared else Ongoing
    ensures k < |intervals| - 1 ==> EndFrom(s, at[k] + 1, |s|) < |s|
  {
    hide Opening, Describes, EndFrom;
    assert Opening(s, at[k]);
    OpeningIsElevated(s, at[k]);
    DescribedState(s, rule, step, at[k], intervals[k]);
    if k < |intervals| - 1 { OnlyLastUncleared(s, |s|, rule, step, at, intervals, k); }
  }

  lemma OpeningIsElevated(s: seq<Sample>, i: nat)
    requires i < |s| && Opening(s, i)
    ensures s[i].Elevated()
  {
  }

  lemma SettledTells(points: seq<Point>, rule: Rule, step: int, unsure: bool, at: seq<nat>, intervals: seq<Interval>, k: nat)
    requires Uniform(points, step) && (forall i, j :: 0 <= i < j < |points| ==> points[i].timestamp < points[j].timestamp)
    requires Reported(Samples(points, rule), |points|, rule.key, step, at, intervals) && k < |intervals|
    ensures Tells(Samples(points, rule), rule, unsure, at[k], Settled(intervals, unsure)[k])
  {
    hide Samples, Uniform, UnknownBeforeEnd, Reported, EndFrom, Opening;
    IntervalState(Samples(points, rule), rule.key, step, at, intervals, k);
    GapsAreUnknownSamples(points, rule, step, at, intervals, k);
  }

  lemma {:induction false} FlattenedMember(parts: seq<seq<Interval>>, v: Interval)
    ensures v in Flattened(parts) <==> exists k :: 0 <= k < |parts| && v in parts[k]
  {
    if parts != [] {
      var n := |parts| - 1;
      FlattenedMember(parts[..n], v);
      if k :| 0 <= k < |parts| && v in parts[k] {
        assert k == n || v in parts[..n][k];
      }
      if k :| 0 <= k < n && v in parts[..n][k] {
        assert v in parts[k];
      }
    }
  }

  ghost predicate TellsOf(rows: seq<Row>, now: real, rule: Rule, stale: set<string>, i: nat, v: Interval)
    requires Acceptable(rows, now)
  {
    Tells(RawSamples(rows, now, rule), rule, RawLatestUnknown(rows, now, rule, stale), i, v)
  }

  // Every interval that is shown is the one of an opening in the raw rows of some rule.
  lemma ShownIntervalsOfRawHistory(rows: seq<Row>, now: real, h: Option<History>, storage: bool, current: Values, stale: set<string>,
                                   reports: seq<RuleReport>, parts: seq<seq<Interval>>, limit: nat, v: Interval)
    requires ReadFrom(rows, now, h) && |parts| == |reports| == |RulesOf(storage)|
    requires forall k :: 0 <= k < |parts| ==> RuleReported(RulesOf(storage)[k], current, h, stale, reports[k], parts[k])
    requires v in First(Sort(NewerFirst, Flattened(parts)), limit)
    ensures Usable(rows, now)
    ensures exists k, i: nat :: 0 <= k < |parts| && LevelsOfRows(rows, now, RulesOf(storage)[k]) && TellsOf(rows, now, RulesOf(storage)[k], stale, i, v)
  {
    hide ReadFrom, RuleReported, Usable, Tells, RawSamples, RawLatestUnknown, NewerFirst, IsLevel, LevelsOfRows;
    ReportShowsNewest(Flattened(parts), limit);
    SameElements(Sort(NewerFirst, Flattened(parts)), Flattened(parts));
    FlattenedMember(parts, v);
    var k :| 0 <= k < |parts| && v in parts[k];
    IntervalsOfRawHistory(rows, now, h, RulesOf(storage)[k], current, stale, reports[k], parts[k]);
    PartTells(rows, now, RulesOf(storage)[k], stale, parts[k], v);
  }

  lemma PartTells(rows: seq<Row>, now: real, rule: Rule, stale: set<string>, settled: seq<Interval>, v: Interval)
    requires Usable(rows, now) && v in settled
    requires var s, unsure := RawSamples(rows, now, rule), RawLatestUnknown(rows, now, rule, stale);
             exists at :: Openings(s, |s|, at) && |at| == |settled| && forall k :: 0 <= k < |at| ==> Tells(s, rule, unsure, at[k], settled[k])
    ensures exists i: nat :: TellsOf(rows, now, rule, stale, i, v)
  {
    hide Tells, RawSamples, RawLatestUnknown, Openings;
    var s, unsure := RawSamples(rows, now, rule), RawLatestUnknown(rows, now, rule, stale);
    var at :| Openings(s, |s|, at) && |at| == |settled| && forall k :: 0 <= k < |at| ==> Tells(s, rule, unsure, at[k], settled[k]);
    var k :| 0 <= k < |settled| && settled[k] == v;
    assert TellsOf(rows, now, rule, stale, at[k], v);
  }
}
