/**
 Threshold intervals computed in one pass over averaged history, and what they mean.

 A sample is elevated when its level is warning or critical. An interval is a maximal
 block of elevated samples that no normal sample interrupts; unknown samples neither
 open nor close one.
 */
module Thresholds {
  import opened Wrappers
  import opened Sorting

  datatype Level = Unknown | Normal | Warning | Critical

  // The readings of one point; a reading that is missing or unusable has no entry.
  type Values = map<string, real>

  datatype Point = Point(timestamp: int, values: Values)

  datatype Rule = Rule(key: string, value: string, total: Option<string>, warning: real, critical: real)

  const CPU_RULE := Rule("cpu", "cpu_percent", None, 70.0, 85.0)
  const MEMORY_RULE := Rule("memory", "memory_used_bytes", Some("memory_total_bytes"), 70.0, 85.0)
  const STORAGE_RULE := Rule("storage", "used_bytes", Some("total_bytes"), 80.0, 90.0)

  function Number(values: Values, key: string): Option<real> {
    if key in values && values[key] >= 0.0 then Some(values[key]) else None
  }

  function Reading(values: Values, rule: Rule): Option<real> {
    var value := Number(values, rule.value);
    if rule.total.None? then value
    else
      var total := Number(values, rule.total.value);
      if value.Some? && total.Some? && total.value > 0.0 then Some(value.value / total.value * 100.0) else None
  }

  function Classify(values: Values, rule: Rule): Level {
    var value := Reading(values, rule);
    if value.None? then Unknown
    else if value.value >= rule.critical then Critical
    else if value.value >= rule.warning then Warning
    else Normal
  }

  // The level of a share: unknown without both amounts, else `used` against percentages of `total`.
  predicate IsShareLevel(values: Values, used: string, total: string, warning: real, critical: real, level: Level) {
    level ==
      if used !in values || values[used] < 0.0 || total !in values || values[total] <= 0.0 then Unknown
      else if 100.0 * values[used] >= critical * values[total] then Critical
      else if 100.0 * values[used] >= warning * values[total] then Warning
      else Normal
  }

  // The level of each metric by its raw readings.
  predicate IsLevel(key: string, values: Values, level: Level) {
    match key
    case "cpu" =>
      level == (if "cpu_percent" !in values || values["cpu_percent"] < 0.0 then Unknown
                else if values["cpu_percent"] >= 85.0 then Critical
                else if values["cpu_percent"] >= 70.0 then Warning
                else Normal)
    case "memory" => IsShareLevel(values, "memory_used_bytes", "memory_total_bytes", 70.0, 85.0, level)
    case "storage" => IsShareLevel(values, "used_bytes", "total_bytes", 80.0, 90.0, level)
    case _ => false
  }

  lemma ShareAtLeast(used: real, total: real, percent: real)
    requires total > 0.0
    ensures used / total * 100.0 >= percent <==> 100.0 * used >= percent * total
  {
    var share := used / total;
    assert share * total == used;
    if share * 100.0 >= percent {
      assert share * 100.0 * total >= percent * total;
    } else {
      assert share * 100.0 * total < percent * total;
    }
  }

  // A rule with a total classifies by the share, and its reading is `used` in percent of `total`.
  lemma ShareLevels(rule: Rule, values: Values)
    requires rule.total.Some?
    ensures IsShareLevel(values, rule.value, rule.total.value, rule.warning, rule.critical, Classify(values, rule))
    ensures var reading := Reading(values, rule);
            reading.Some? ==>
              rule.value in values && rule.total.value in values && reading.value * values[rule.total.value] == 100.0 * values[rule.value]
  {
    var used, total := Number(values, rule.value), Number(values, rule.total.value);
    if used.Some? && total.Some? && total.value > 0.0 {
      ShareAtLeast(used.value, total.value, rule.warning);
      ShareAtLeast(used.value, total.value, rule.critical);
      PercentOf(used.value, total.value);
    }
  }

  lemma PercentOf(used: real, total: real)
    requires total > 0.0
    ensures used / total * 100.0 * total == 100.0 * used
  {
    assert used / total * total == used;
  }

  // The three rules classify by the raw readings.
  lemma RuleLevels(rule: Rule, values: Values)
    requires rule in [CPU_RULE, MEMORY_RULE, STORAGE_RULE]
    ensures IsLevel(rule.key, values, Classify(values, rule))
  {
    if rule.total.Some? {
      ShareLevels(rule, values);
      hide Classify, IsShareLevel;
    }
  }

  datatype Sample = Sample(stamp: int, level: Level, value: Option<real>) {
    predicate Elevated() {
      level.Warning? || level.Critical?
    }
  }

  function Samples(points: seq<Point>, rule: Rule): (s: seq<Sample>)
    ensures |s| == |points|
  {
    seq(|points|, i requires 0 <= i < |points| =>
      Sample(points[i].timestamp, Classify(points[i].values, rule), Reading(points[i].values, rule)))
  }

  datatype Progress = Ongoing | Cleared | Unsure

  datatype Change = Change(stamp: int, severity: Level)

  datatype Interval = Interval(
    rule: string, first: int, lastHigh: int, cleared: Option<int>, state: Progress,
    lastSeverity: Level, maximumSeverity: Level, latest: Option<real>,
    onsetConfirmed: bool, hasGaps: bool, changes: seq<Change>, changesTruncated: bool)

  const KEPT_CHANGES: nat := 20

  // ----- what an interval is

  // More than one and a half steps lie between sample `j` and the one before it.
  predicate Gap(s: seq<Sample>, resolution: int, j: nat)
    requires j < |s|
  {
    j > 0 && (s[j].stamp - s[j - 1].stamp) as real > resolution as real * 1.5
  }

  // Every elevated sample before `i` is followed, before `i`, by a normal one.
  ghost predicate Opening(s: seq<Sample>, i: nat)
    requires i < |s|
  {
    s[i].Elevated() &&
    forall j :: 0 <= j < i && s[j].Elevated() ==> exists k :: j < k < i && s[k].level == Normal
  }

  // The first normal sample at or after `j`, or `n` when there is none before `n`.
  function EndFrom(s: seq<Sample>, j: nat, n: nat): (e: nat)
    requires j <= n <= |s|
    ensures j <= e <= n
    ensures forall k :: j <= k < e ==> s[k].level != Normal
    ensures e < n ==> s[e].level == Normal
    decreases n - j
  {
    if j == n || s[j].level == Normal then j else EndFrom(s, j + 1, n)
  }

  // The elevated samples of a block after its first, where the severity differs from the
  // elevated sample before.
  function Changes(s: seq<Sample>, i: nat, e: nat): seq<Change>
    requires i < e <= |s| && s[i].Elevated()
    decreases e
  {
    if e == i + 1 then []
    else
      var before := Changes(s, i, e - 1);
      if s[e - 1].Elevated() && s[e - 1].level != s[LastHigh(s, i, e - 1)].level
      then before + [Change(s[e - 1].stamp, s[e - 1].level)]
      else before
  }

  // The last elevated sample in [i, e).
  function LastHigh(s: seq<Sample>, i: nat, e: nat): (h: nat)
    requires i < e <= |s| && s[i].Elevated()
    ensures i <= h < e && s[h].Elevated()
    ensures forall k :: h < k < e ==> !s[k].Elevated()
    decreases e
  {
    if s[e - 1].Elevated() then e - 1 else LastHigh(s, i, e - 1)
  }

  function LastOf<T>(xs: seq<T>, n: nat): seq<T> {
    if |xs| > n then xs[|xs| - n..] else xs
  }

  predicate Disturbed(s: seq<Sample>, resolution: int, j: nat)
    requires j < |s|
  {
    s[j].level == Unknown || Gap(s, resolution, j)
  }

  ghost predicate DisturbedIn(s: seq<Sample>, resolution: int, lo: nat, hi: nat)
    requires hi <= |s|
  {
    exists j :: lo <= j < hi && Disturbed(s, resolution, j)
  }

  ghost predicate CriticalIn(s: seq<Sample>, lo: nat, hi: nat)
    requires hi <= |s|
  {
    exists j :: lo <= j < hi && s[j].level == Critical
  }

  // What is reported of the block that opens at `i`, when only the first `n` samples are seen.
  ghost predicate Describes(s: seq<Sample>, n: nat, rule: string, resolution: int, i: nat, v: Interval)
    requires i < n <= |s| && s[i].Elevated()
  {
    var e := EndFrom(s, i + 1, n);
    var high := LastHigh(s, i, e);
    && v.rule == rule
    && v.first == s[i].stamp
    && v.lastHigh == s[high].stamp && v.lastSeverity == s[high].level && v.latest == s[high].value
    && v.cleared == (if e < n then Some(s[e].stamp) else None)
    && v.state == (if e < n then Cleared else Ongoing)
    && v.maximumSeverity == (if CriticalIn(s, i, e) then Critical else Warning)
    && (v.onsetConfirmed <==> i > 0 && s[i - 1].level == Normal && !Gap(s, resolution, i))
    && (v.hasGaps <==> DisturbedIn(s, resolution, i + 1, if e < n then e + 1 else n))
    && v.changes == LastOf(Changes(s, i, e), 20)
    && (v.changesTruncated <==> |Changes(s, i, e)| > 20)
  }

  // The openings among the first `n` samples, in order.
  ghost predicate Openings(s: seq<Sample>, n: nat, at: seq<nat>)
    requires n <= |s|
  {
    && (forall k :: 0 <= k < |at| ==> at[k] < n && Opening(s, at[k]))
    && (forall k, l :: 0 <= k < l < |at| ==> at[k] < at[l])
    && (forall i :: 0 <= i < n && Opening(s, i) ==> i in at)
  }

  ghost predicate Reported(s: seq<Sample>, n: nat, rule: string, resolution: int, at: seq<nat>, intervals: seq<Interval>)
    requires n <= |s|
  {
    && Openings(s, n, at)
    && |intervals| == |at|
    && forall k :: 0 <= k < |at| ==> Describes(s, n, rule, resolution, at[k], intervals[k])
  }

  // ----- one more sample

  lemma {:induction false} EndGrows(s: seq<Sample>, j: nat, n: nat)
    requires j <= n < |s|
    ensures EndFrom(s, j, n) < n ==> EndFrom(s, j, n + 1) == EndFrom(s, j, n)
    ensures EndFrom(s, j, n) == n ==> EndFrom(s, j, n + 1) == if s[n].level == Normal then n else n + 1
    decreases n - j
  {
    if j < n && s[j].level != Normal { EndGrows(s, j + 1, n); }
  }

  // A block that has ended is reported the same for ever.
  lemma EndedStays(s: seq<Sample>, n: nat, rule: string, resolution: int, i: nat, v: Interval)
    requires i < n < |s| && s[i].Elevated() && Describes(s, n, rule, resolution, i, v)
    requires EndFrom(s, i + 1, n) < n
    ensures Describes(s, n + 1, rule, resolution, i, v)
  {
    EndGrows(s, i + 1, n);
  }

  // The block at `i` has not ended: no normal sample has been seen since.
  ghost predicate Running(s: seq<Sample>, n: nat, i: nat)
    requires i < n <= |s|
  {
    s[i].Elevated() && EndFrom(s, i + 1, n) == n
  }

  // What the scanner does to the interval of a running block.
  function WithGap(v: Interval, gap: bool): Interval {
    if gap then v.(hasGaps := true) else v
  }

  function WithClear(v: Interval, x: Sample): Interval {
    v.(cleared := Some(x.stamp), state := Cleared)
  }

  function WithChange(v: Interval, x: Sample): Interval {
    if v.lastSeverity == x.level then v
    else
      var changes := v.changes + [Change(x.stamp, x.level)];
      if |changes| > KEPT_CHANGES then v.(changes := LastOf(changes, KEPT_CHANGES), changesTruncated := true)
      else v.(changes := changes)
  }

  function WithHigh(v: Interval, x: Sample): Interval {
    var seen := v.(lastHigh := x.stamp, lastSeverity := x.level, latest := x.value);
    if x.level == Critical then seen.(maximumSeverity := Critical) else seen
  }

  function FirstSeen(rule: string, x: Sample, onset: bool): Interval {
    WithHigh(Interval(rule, x.stamp, x.stamp, None, Ongoing, x.level, x.level, x.value, onset, false, [], false), x)
  }

  lemma DisturbedGrows(s: seq<Sample>, resolution: int, lo: nat, hi: nat)
    requires lo <= hi < |s|
    ensures DisturbedIn(s, resolution, lo, hi + 1) <==> DisturbedIn(s, resolution, lo, hi) || Disturbed(s, resolution, hi)
  {
    if Disturbed(s, resolution, hi) { assert lo <= hi < hi + 1; }
  }

  lemma CriticalGrows(s: seq<Sample>, lo: nat, hi: nat)
    requires lo <= hi < |s|
    ensures CriticalIn(s, lo, hi + 1) <==> CriticalIn(s, lo, hi) || s[hi].level == Critical
  {
    if s[hi].level == Critical { assert lo <= hi < hi + 1; }
  }

  lemma UnknownGrows(s: seq<Sample>, n: nat, rule: string, resolution: int, i: nat, v: Interval)
    requires i < n < |s| && Running(s, n, i) && Describes(s, n, rule, resolution, i, v)
    requires s[n].level == Unknown
    ensures Running(s, n + 1, i) && Describes(s, n + 1, rule, resolution, i, WithGap(v, true))
  {
    EndGrows(s, i + 1, n);
    DisturbedGrows(s, resolution, i + 1, n);
    CriticalGrows(s, i, n);
    hide DisturbedIn, CriticalIn;
  }

  lemma NormalCloses(s: seq<Sample>, n: nat, rule: string, resolution: int, i: nat, v: Interval)
    requires i < n < |s| && Running(s, n, i) && Describes(s, n, rule, resolution, i, v)
    requires s[n].level == Normal
    ensures EndFrom(s, i + 1, n + 1) == n
    ensures Describes(s, n + 1, rule, resolution, i, WithClear(WithGap(v, Gap(s, resolution, n)), s[n]))
  {
    EndGrows(s, i + 1, n);
    DisturbedGrows(s, resolution, i + 1, n);
    hide DisturbedIn, CriticalIn;
  }

  lemma ChangesGrow(s: seq<Sample>, i: nat, n: nat)
    requires i < n < |s| && s[i].Elevated() && s[n].Elevated()
    ensures LastHigh(s, i, n + 1) == n
    ensures Changes(s, i, n + 1)
            == if s[n].level == s[LastHigh(s, i, n)].level then Changes(s, i, n)
               else Changes(s, i, n) + [Change(s[n].stamp, s[n].level)]
  {
  }

  lemma HighGrows(s: seq<Sample>, n: nat, rule: string, resolution: int, i: nat, v: Interval)
    requires i < n < |s| && Running(s, n, i) && Describes(s, n, rule, resolution, i, v)
    requires s[n].Elevated()
    ensures Running(s, n + 1, i)
    ensures Describes(s, n + 1, rule, resolution, i, WithHigh(WithChange(WithGap(v, Gap(s, resolution, n)), s[n]), s[n]))
  {
    hide DisturbedIn, CriticalIn, EndFrom, Changes, LastHigh, Gap, LastOf;
    EndGrows(s, i + 1, n);
    DisturbedGrows(s, resolution, i + 1, n);
    CriticalGrows(s, i, n);
    ChangesGrow(s, i, n);
    KeptChanges(Changes(s, i, n), Change(s[n].stamp, s[n].level));
  }

  // What is kept of the changes after one more of them.
  lemma KeptChanges(xs: seq<Change>, x: Change)
    ensures var longer := LastOf(xs, KEPT_CHANGES) + [x];
            LastOf(xs + [x], KEPT_CHANGES) == if |longer| > KEPT_CHANGES then LastOf(longer, KEPT_CHANGES) else longer
    ensures |LastOf(xs, KEPT_CHANGES)| == if |xs| > KEPT_CHANGES then KEPT_CHANGES else |xs|
  {
  }

  lemma HighOpens(s: seq<Sample>, n: nat, rule: string, resolution: int)
    requires n < |s| && s[n].Elevated()
    ensures Running(s, n + 1, n)
    ensures Describes(s, n + 1, rule, resolution, n,
                      FirstSeen(rule, s[n], n > 0 && s[n - 1].level == Normal && !Gap(s, resolution, n)))
  {
  }

  // An elevated sample at `j` belongs to a block that opens no earlier than `lo`, when every
  // elevated sample before `lo` is followed by a normal one before `lo`.
  lemma OpensSince(s: seq<Sample>, lo: nat, j: nat) returns (i: nat)
    requires lo <= j < |s| && s[j].Elevated()
    requires forall m :: 0 <= m < lo && s[m].Elevated() ==> exists k :: m < k < lo && s[k].level == Normal
    ensures lo <= i <= j && Opening(s, i)
  {
    i := lo;
    while !s[i].Elevated()
      invariant lo <= i <= j
      invariant forall m :: lo <= m < i ==> !s[m].Elevated()
      decreases j - i
    {
      i := i + 1;
    }
    forall m | 0 <= m < i && s[m].Elevated() ensures exists k :: m < k < i && s[k].level == Normal {
      var k :| m < k < lo && s[k].level == Normal;
    }
  }

  // With no block running, an elevated sample opens one.
  lemma OpensWhenIdle(s: seq<Sample>, n: nat, at: seq<nat>)
    requires n < |s| && s[n].Elevated() && Openings(s, n, at)
    requires |at| > 0 ==> !Running(s, n, at[|at| - 1])
    ensures Opening(s, n)
  {
    var lo := if |at| == 0 then 0 else EndFrom(s, at[|at| - 1] + 1, n) + 1;
    assert lo > 0 ==> s[lo - 1].level == Normal;
    forall j | 0 <= j < n && s[j].Elevated() ensures exists k :: j < k < n && s[k].level == Normal {
      if j < lo {
        assert j < lo - 1 < n;
      } else {
        assert forall m :: 0 <= m < lo && s[m].Elevated() ==> m < lo - 1 < lo;
        var i := OpensSince(s, lo, j);
      }
    }
  }

  // While a block runs, no sample opens another.
  lemma NotOpening(s: seq<Sample>, n: nat, i: nat)
    requires i < n < |s| && Running(s, n, i)
    ensures !Opening(s, n)
  {
  }

  lemma OpeningsGrow(s: seq<Sample>, n: nat, at: seq<nat>)
    requires n < |s| && Openings(s, n, at)
    ensures Opening(s, n) ==> Openings(s, n + 1, at + [n])
    ensures !Opening(s, n) ==> Openings(s, n + 1, at)
  {
    if Opening(s, n) {
      forall i | 0 <= i < n + 1 && Opening(s, i) ensures i in at + [n] {
        if i < n { assert i in at; }
      }
    }
  }

  // ----- the scanner

  // The scanner has reported the first `n` samples: every block but the last has ended, and
  // `active` tells whether the last one still runs.
  ghost predicate Scanned(s: seq<Sample>, n: nat, rule: string, resolution: int, at: seq<nat>, intervals: seq<Interval>, active: bool)
    requires n <= |s|
  {
    && Reported(s, n, rule, resolution, at, intervals)
    && (forall k :: 0 <= k < |at| - 1 ==> EndFrom(s, at[k] + 1, n) < n)
    && (active <==> |at| > 0 && Running(s, n, at[|at| - 1]))
  }

  // What the sample `x` makes of the intervals while the last one is running.
  function NextIntervals(intervals: seq<Interval>, x: Sample, gap: bool): seq<Interval>
    requires |intervals| > 0
  {
    var v := WithGap(intervals[|intervals| - 1], gap || x.level == Unknown);
    var w := if x.level == Unknown then v else if x.level == Normal then WithClear(v, x) else WithHigh(WithChange(v, x), x);
    intervals[|intervals| - 1 := w]
  }

  lemma EndedBefore(s: seq<Sample>, n: nat, rule: string, resolution: int, at: seq<nat>, intervals: seq<Interval>, active: bool, k: nat)
    requires n < |s| && Scanned(s, n, rule, resolution, at, intervals, active)
    requires k < |at| && (active ==> k < |at| - 1)
    ensures Describes(s, n + 1, rule, resolution, at[k], intervals[k]) && EndFrom(s, at[k] + 1, n + 1) < n + 1
  {
    EndedStays(s, n, rule, resolution, at[k], intervals[k]);
    EndGrows(s, at[k] + 1, n);
  }

  lemma ActiveNext(s: seq<Sample>, n: nat, rule: string, resolution: int, i: nat, v: Interval)
    requires i < n < |s| && Running(s, n, i) && Describes(s, n, rule, resolution, i, v)
    ensures var w := NextIntervals([v], s[n], Gap(s, resolution, n))[0];
            && Describes(s, n + 1, rule, resolution, i, w)
            && (Running(s, n + 1, i) <==> s[n].level != Normal)
  {
    if s[n].level == Unknown {
      UnknownGrows(s, n, rule, resolution, i, v);
    } else if s[n].level == Normal {
      NormalCloses(s, n, rule, resolution, i, v);
    } else {
      HighGrows(s, n, rule, resolution, i, v);
    }
    hide Describes, EndFrom, LastHigh, Changes, Gap;
  }

  lemma NextOfLast(intervals: seq<Interval>, x: Sample, gap: bool)
    requires |intervals| > 0
    ensures var last := |intervals| - 1;
            NextIntervals(intervals, x, gap)
              == intervals[last := NextIntervals([intervals[last]], x, gap)[0]]
  {
    hide WithGap, WithClear, WithHigh, WithChange;
  }

  lemma EndedAll(s: seq<Sample>, n: nat, rule: string, resolution: int, at: seq<nat>, intervals: seq<Interval>, active: bool)
    requires n < |s| && Scanned(s, n, rule, resolution, at, intervals, active)
    ensures forall k :: 0 <= k < |at| && (active ==> k < |at| - 1) ==>
      Describes(s, n + 1, rule, resolution, at[k], intervals[k]) && EndFrom(s, at[k] + 1, n + 1) < n + 1
  {
    forall k | 0 <= k < |at| && (active ==> k < |at| - 1)
      ensures Describes(s, n + 1, rule, resolution, at[k], intervals[k]) && EndFrom(s, at[k] + 1, n + 1) < n + 1
    {
      EndedBefore(s, n, rule, resolution, at, intervals, active, k);
    }
  }

  lemma ScanActive(s: seq<Sample>, n: nat, rule: string, resolution: int, at: seq<nat>, intervals: seq<Interval>)
    requires n < |s| && Scanned(s, n, rule, resolution, at, intervals, true)
    ensures |intervals| > 0
    ensures Scanned(s, n + 1, rule, resolution, at,
                    NextIntervals(intervals, s[n], Gap(s, resolution, n)), s[n].level != Normal)
  {
    var last := |at| - 1;
    OpeningsGrow(s, n, at);
    NotOpening(s, n, at[last]);
    EndedAll(s, n, rule, resolution, at, intervals, true);
    ActiveNext(s, n, rule, resolution, at[last], intervals[last]);
    NextOfLast(intervals, s[n], Gap(s, resolution, n));
    hide Describes, Openings, Opening, Gap, NextIntervals;
  }

  lemma ScanQuiet(s: seq<Sample>, n: nat, rule: string, resolution: int, at: seq<nat>, intervals: seq<Interval>)
    requires n < |s| && Scanned(s, n, rule, resolution, at, intervals, false) && !s[n].Elevated()
    ensures Scanned(s, n + 1, rule, resolution, at, intervals, false)
  {
    OpeningsGrow(s, n, at);
    EndedAll(s, n, rule, resolution, at, intervals, false);
    assert !Opening(s, n);
    hide Describes, Openings, Opening, Gap;
  }

  lemma OneMoreScanned(s: seq<Sample>, n: nat, rule: string, resolution: int, at: seq<nat>, intervals: seq<Interval>, v: Interval)
    requires n < |s| && |at| == |intervals| && Openings(s, n + 1, at + [n]) && Running(s, n + 1, n)
    requires forall k :: 0 <= k < |at| ==> at[k] < n && s[at[k]].Elevated()
    requires forall k :: 0 <= k < |at| ==> Describes(s, n + 1, rule, resolution, at[k], intervals[k])
    requires forall k :: 0 <= k < |at| ==> EndFrom(s, at[k] + 1, n + 1) < n + 1
    requires Describes(s, n + 1, rule, resolution, n, v)
    ensures Scanned(s, n + 1, rule, resolution, at + [n], intervals + [v], true)
  {
    hide Describes, EndFrom, Openings, Running, Scanned;
    var at', intervals' := at + [n], intervals + [v];
    OpeningsElevated(s, n + 1, at');
    forall k | 0 <= k < |at'| ensures Describes(s, n + 1, rule, resolution, at'[k], intervals'[k]) {
      if k < |at| { assert at'[k] == at[k] && intervals'[k] == intervals[k]; }
    }
    forall k | 0 <= k < |at'| - 1 ensures EndFrom(s, at'[k] + 1, n + 1) < n + 1 {
      assert at'[k] == at[k];
    }
    PartsScanned(s, n + 1, rule, resolution, at', intervals');
  }

  lemma PartsScanned(s: seq<Sample>, n: nat, rule: string, resolution: int, at: seq<nat>, intervals: seq<Interval>)
    requires n <= |s| && Openings(s, n, at) && |intervals| == |at| > 0
    requires forall k :: 0 <= k < |at| ==> at[k] < n && s[at[k]].Elevated()
    requires forall k :: 0 <= k < |at| ==> Describes(s, n, rule, resolution, at[k], intervals[k])
    requires forall k :: 0 <= k < |at| - 1 ==> EndFrom(s, at[k] + 1, n) < n
    requires Running(s, n, at[|at| - 1])
    ensures Scanned(s, n, rule, resolution, at, intervals, true)
  {
    hide Openings, Describes, EndFrom, Running;
  }

  lemma OpeningsElevated(s: seq<Sample>, n: nat, at: seq<nat>)
    requires n <= |s| && Openings(s, n, at)
    ensures forall k :: 0 <= k < |at| ==> at[k] < n && s[at[k]].Elevated()
  {
  }

  lemma ScanOpens(s: seq<Sample>, n: nat, rule: string, resolution: int, at: seq<nat>, intervals: seq<Interval>)
    requires n < |s| && Scanned(s, n, rule, resolution, at, intervals, false) && s[n].Elevated()
    ensures var onset := n > 0 && s[n - 1].level == Normal && !Gap(s, resolution, n);
            Scanned(s, n + 1, rule, resolution, at + [n], intervals + [FirstSeen(rule, s[n], onset)], true)
  {
    hide Opening, Gap, FirstSeen, EndFrom, Describes, Openings;
    OpeningsElevated(s, n, at);
    OpeningsGrow(s, n, at);
    EndedAll(s, n, rule, resolution, at, intervals, false);
    OpensWhenIdle(s, n, at);
    HighOpens(s, n, rule, resolution);
    var onset := n > 0 && s[n - 1].level == Normal && !Gap(s, resolution, n);
    OneMoreScanned(s, n, rule, resolution, at, intervals, FirstSeen(rule, s[n], onset));
  }

  lemma ScanStart(s: seq<Sample>, rule: string, resolution: int)
    ensures Scanned(s, 0, rule, resolution, [], [], false)
  {
  }

  lemma SampleAt(points: seq<Point>, rule: Rule, n: nat)
    requires n < |points|
    ensures Samples(points, rule)[n] == Sample(points[n].timestamp, Classify(points[n].values, rule), Reading(points[n].values, rule))
  {
    hide Classify, Reading;
  }

  lemma GapAt(s: seq<Sample>, resolution: int, n: nat)
    requires n < |s|
    ensures Gap(s, resolution, n) <==> n > 0 && (s[n].stamp - s[n - 1].stamp) as real > resolution as real * 1.5
  {
  }

  method Scan(points: seq<Point>, rule: Rule, resolution: int) returns (intervals: seq<Interval>, latest: Level)
    ensures exists at, active :: Scanned(Samples(points, rule), |points|, rule.key, resolution, at, intervals, active)
    ensures latest == if points == [] then Unknown else Samples(points, rule)[|points| - 1].level
  {
    hide Scanned, Classify, Reading, Gap, Samples;
    ghost var s := Samples(points, rule);
    intervals := [];
    var active := false;
    var previousState: Level := Unknown;
    var previousTime: Option<int> := None;
    ghost var at: seq<nat> := [];
    var n := 0;
    ScanStart(s, rule.key, resolution);
    while n < |points|
      invariant 0 <= n <= |points|
      invariant Scanned(s, n, rule.key, resolution, at, intervals, active)
      invariant previousState == if n == 0 then Unknown else s[n - 1].level
      invariant previousTime == if n == 0 then None else Some(s[n - 1].stamp)
    {
      var state := Classify(points[n].values, rule);
      var value := Reading(points[n].values, rule);
      var stamp := points[n].timestamp;
      var gap := previousTime.Some? && (stamp - previousTime.value) as real > resolution as real * 1.5;
      SampleAt(points, rule, n);
      GapAt(s, resolution, n);
      if active {
        ScanActive(s, n, rule.key, resolution, at, intervals);
        var last := |intervals| - 1;
        var current := intervals[last];
        if gap || state == Unknown { current := current.(hasGaps := true); }
        if state == Normal {
          current := current.(cleared := Some(stamp));
          current := current.(state := Cleared);
          active := false;
        } else if state != Unknown {
          if current.lastSeverity != state {
            current := current.(changes := current.changes + [Change(stamp, state)]);
            if |current.changes| > KEPT_CHANGES {
              current := current.(changes := current.changes[|current.changes| - KEPT_CHANGES..], changesTruncated := true);
            }
          }
          current := current.(lastHigh := stamp, lastSeverity := state, latest := value);
          if state == Critical { current := current.(maximumSeverity := Critical); }
        }
        assert intervals[last := current] == NextIntervals(intervals, s[n], gap);
        intervals := intervals[last := current];
      } else {
        if state != Unknown && state != Normal {
          ScanOpens(s, n, rule.key, resolution, at, intervals);
          var opening := Interval(rule.key, stamp, stamp, None, Ongoing, state, state, value,
                                  previousState == Normal && !gap, false, [], false);
          intervals := intervals + [opening];
          active := true;
          at := at + [n];
        } else {
          ScanQuiet(s, n, rule.key, resolution, at, intervals);
        }
      }
      previousState, previousTime := state, Some(stamp);
      n := n + 1;
    }
    latest := previousState;
  }

  // ----- what a report says

  // The openings of a history are determined by its samples.
  lemma {:induction false} OpeningsDetermined(s: seq<Sample>, n: nat, at: seq<nat>, other: seq<nat>)
    requires n <= |s| && Openings(s, n, at) && Openings(s, n, other)
    ensures at == other
  {
    hide Openings;
    SameLast(s, n, at, other);
    if at != [] {
      var k, l := |at| - 1, |other| - 1;
      Shorter(s, n, at);
      Shorter(s, n, other);
      OpeningsDetermined(s, at[k], at[..k], other[..l]);
      assert at == at[..k] + [at[k]] && other == other[..l] + [other[l]];
    }
  }

  lemma SameLast(s: seq<Sample>, n: nat, at: seq<nat>, other: seq<nat>)
    requires n <= |s| && Openings(s, n, at) && Openings(s, n, other)
    ensures at == [] <==> other == []
    ensures at != [] ==> at[|at| - 1] == other[|other| - 1] && at[|at| - 1] < n
  {
    if other != [] { assert other[0] in at; }
    if at != [] {
      assert at[0] in other;
      assert at[|at| - 1] in other && other[|other| - 1] in at;
    }
    hide Opening;
  }

  lemma Shorter(s: seq<Sample>, n: nat, at: seq<nat>)
    requires n <= |s| && Openings(s, n, at) && at != []
    ensures Openings(s, at[|at| - 1], at[..|at| - 1])
  {
    var k := |at| - 1;
    forall i | 0 <= i < at[k] && Opening(s, i) ensures i in at[..k] {
      assert i in at;
    }
  }

  // The samples leave no choice: whatever is reported of them is the same list.
  lemma ReportDetermined(s: seq<Sample>, n: nat, rule: string, resolution: int,
                         at: seq<nat>, intervals: seq<Interval>, other: seq<nat>, others: seq<Interval>)
    requires n <= |s| && Reported(s, n, rule, resolution, at, intervals) && Reported(s, n, rule, resolution, other, others)
    ensures at == other && intervals == others
  {
    OpeningsDetermined(s, n, at, other);
    forall k | 0 <= k < |intervals| ensures intervals[k] == others[k] {
      assert Describes(s, n, rule, resolution, at[k], intervals[k]) && Describes(s, n, rule, resolution, at[k], others[k]);
    }
  }

  // Intervals follow one another, and only the last can be uncleared.
  lemma OnlyLastUncleared(s: seq<Sample>, n: nat, rule: string, resolution: int, at: seq<nat>, intervals: seq<Interval>, k: nat)
    requires n <= |s| && Reported(s, n, rule, resolution, at, intervals) && k < |intervals| - 1
    ensures intervals[k].state == Cleared && intervals[k].cleared.Some?
    ensures EndFrom(s, at[k] + 1, n) < at[k + 1]
  {
    assert Opening(s, at[k + 1]);
    var j :| at[k] < j < at[k + 1] && s[j].level == Normal;
  }

  // ----- history that was validated

  datatype Row = Malformed | Row(time: Option<real>, values: Values)

  datatype History = History(points: seq<Point>, resolution: Option<int>)

  const MAX_ROWS: nat := 10000

  predicate Acceptable(rows: seq<Row>, now: real) {
    && |rows| <= 10000
    && (forall i :: 0 <= i < |rows| ==>
          && rows[i].Row? && rows[i].time.Some? && rows[i].time.value >= 0.0
          && rows[i].time.value.Floor as real == rows[i].time.value
          && rows[i].time.value <= now + 300.0)
    && (forall i, j :: 0 <= i < j < |rows| ==> rows[i].time.value < rows[j].time.value)
  }

  function StepAt(points: seq<Point>, i: nat): int
    requires 0 < i < |points|
  {
    points[i].timestamp - points[i - 1].timestamp
  }

  predicate Uniform(points: seq<Point>, step: int) {
    |points| >= 2 && forall i :: 0 < i < |points| ==> StepAt(points, i) == step
  }

  // The different steps that occur between neighbouring points.
  method Steps(points: seq<Point>) returns (steps: seq<int>)
    ensures forall step :: step in steps <==> exists i :: 0 < i < |points| && StepAt(points, i) == step
    ensures forall k, l :: 0 <= k < l < |steps| ==> steps[k] != steps[l]
  {
    steps := [];
    var i := 1;
    while i < |points|
      invariant 0 < i && (i <= |points| || points == [])
      invariant forall step :: step in steps <==> exists j :: 0 < j < i && j < |points| && StepAt(points, j) == step
      invariant forall k, l :: 0 <= k < l < |steps| ==> steps[k] != steps[l]
    {
      if StepAt(points, i) !in steps { steps := steps + [StepAt(points, i)]; }
      i := i + 1;
    }
  }

  lemma UniformSteps(points: seq<Point>, steps: seq<int>, step: int)
    requires forall d :: d in steps <==> exists i :: 0 < i < |points| && StepAt(points, i) == d
    requires forall k, l :: 0 <= k < l < |steps| ==> steps[k] != steps[l]
    ensures Uniform(points, step) <==> steps == [step]
  {
    assert |steps| < 2 || steps[0] != steps[1];
    if Uniform(points, step) {
      assert StepAt(points, 1) in steps;
      forall k | 0 <= k < |steps| ensures steps[k] == step {
        assert steps[k] in steps;
        var i :| 0 < i < |points| && StepAt(points, i) == steps[k];
      }
    }
    if steps == [step] {
      assert forall d :: d in steps ==> d == step;
      assert step in steps;
      assert forall i :: 0 < i < |points| ==> StepAt(points, i) in steps;
    }
  }

  // The step of the history, when there is only one.
  method Resolution(points: seq<Point>) returns (resolution: Option<int>)
    ensures forall step :: resolution == Some(step) <==> Uniform(points, step)
  {
    var steps := Steps(points);
    resolution := if |steps| == 1 then Some(steps[0]) else None;
    forall step ensures Uniform(points, step) <==> steps == [step] {
      UniformSteps(points, steps, step);
    }
  }

  // The history `r` that is read from raw rows.
  ghost predicate ReadFrom(rows: seq<Row>, now: real, r: Option<History>) {
    && (r.Some? <==> Acceptable(rows, now))
    && (r.Some? ==>
          && |r.value.points| == |rows|
          && (forall i :: 0 <= i < |rows| ==>
                r.value.points[i].timestamp as real == rows[i].time.value && r.value.points[i].values == rows[i].values)
          && (forall step :: r.value.resolution == Some(step) <==> Uniform(r.value.points, step)))
  }

  // One row that is malformed, too early or too late, or no later than the one before, and the
  // whole history is refused.
  lemma RowRefused(rows: seq<Row>, now: real, i: nat)
    requires i < |rows| && (i > 0 ==> rows[i - 1].Row? && rows[i - 1].time.Some?)
    requires var row := rows[i];
             row.Malformed? || row.time.None? || row.time.value < 0.0 || row.time.value != row.time.value.Floor as real
             || (i > 0 && row.time.value <= rows[i - 1].time.value) || row.time.value > now + 300.0
    ensures !Acceptable(rows, now)
  {
  }

  method HistoryMetrics(rows: seq<Row>, now: real) returns (r: Option<History>)
    ensures ReadFrom(rows, now, r)
  {
    if |rows| > MAX_ROWS { return None; }
    var points: seq<Point> := [];
    var previous := -1.0;
    var i := 0;
    while i < |rows|
      invariant 0 <= i <= |rows| && |points| == i
      invariant Acceptable(rows[..i], now)
      invariant previous == if i == 0 then -1.0 else rows[i - 1].time.value
      invariant forall k :: 0 <= k < i ==> points[k].timestamp as real == rows[k].time.value && points[k].values == rows[k].values
    {
      var row := rows[i];
      if row.Malformed? || row.time.None? || row.time.value < 0.0 || row.time.value != row.time.value.Floor as real
         || row.time.value <= previous || row.time.value > now + 300.0 {
        RowRefused(rows, now, i);
        return None;
      }
      previous := row.time.value;
      points := points + [Point(row.time.value.Floor, row.values)];
      i := i + 1;
    }
    assert rows[..|rows|] == rows;
    var resolution := Resolution(points);
    return Some(History(points, resolution));
  }

  // On validated history no step is longer than the others, so the gap test never fires.
  lemma NoGapInUniformHistory(points: seq<Point>, rule: Rule, step: int, j: nat)
    requires Uniform(points, step) && (forall i, j :: 0 <= i < j < |points| ==> points[i].timestamp < points[j].timestamp)
    requires j < |points|
    ensures !Gap(Samples(points, rule), step, j)
  {
    var s := Samples(points, rule);
    if j > 0 {
      assert s[j].stamp - s[j - 1].stamp == StepAt(points, j);
      assert points[j - 1].timestamp < points[j].timestamp;
    }
  }

  // An unknown sample lies at or after `lo` and before the first normal one, or the end.
  ghost predicate UnknownBeforeEnd(s: seq<Sample>, lo: nat)
    requires lo <= |s|
  {
    exists j :: lo <= j < EndFrom(s, lo, |s|) && s[j].level == Unknown
  }

  function PastEnd(s: seq<Sample>, lo: nat): (hi: nat)
    requires lo <= |s|
    ensures hi <= |s|
  {
    var e := EndFrom(s, lo, |s|);
    if e < |s| then e + 1 else |s|
  }

  lemma DisturbedIsUnknown(points: seq<Point>, rule: Rule, step: int, lo: nat)
    requires Uniform(points, step) && (forall i, j :: 0 <= i < j < |points| ==> points[i].timestamp < points[j].timestamp)
    requires lo <= |points|
    ensures DisturbedIn(Samples(points, rule), step, lo, PastEnd(Samples(points, rule), lo))
            <==> UnknownBeforeEnd(Samples(points, rule), lo)
  {
    var s := Samples(points, rule);
    forall j | 0 <= j < |points| ensures Disturbed(s, step, j) <==> s[j].level == Unknown {
      NoGapInUniformHistory(points, rule, step, j);
    }
    hide Samples, Gap;
  }

  // An interval of validated history has an observation gap exactly when an unknown sample
  // lies between its opening and its end, and its onset is confirmed exactly when the sample
  // just before was normal.
  lemma GapsAreUnknownSamples(points: seq<Point>, rule: Rule, step: int, at: seq<nat>, intervals: seq<Interval>, k: nat)
    requires Uniform(points, step) && (forall i, j :: 0 <= i < j < |points| ==> points[i].timestamp < points[j].timestamp)
    requires Reported(Samples(points, rule), |points|, rule.key, step, at, intervals) && k < |intervals|
    ensures intervals[k].hasGaps <==> UnknownBeforeEnd(Samples(points, rule), at[k] + 1)
    ensures intervals[k].onsetConfirmed <==> at[k] > 0 && Samples(points, rule)[at[k] - 1].level == Normal
  {
    var s := Samples(points, rule);
    assert Describes(s, |points|, rule.key, step, at[k], intervals[k]);
    NoGapInUniformHistory(points, rule, step, at[k]);
    DisturbedIsUnknown(points, rule, step, at[k] + 1);
  }

  // ----- the whole report

  datatype RuleReport = RuleReport(key: string, current: Level, history: Level)

  datatype Report = Report(available: bool, rules: seq<RuleReport>, intervals: seq<Interval>, count: nat, truncated: bool)

  // Newer intervals come first; on a tie the later rule name does.
  predicate NewerFirst(a: Interval, b: Interval) {
    a.first > b.first || (a.first == b.first && LexLe(b.rule, a.rule))
  }

  lemma NewerFirstOrders()
    ensures TotalPreorder(NewerFirst)
  {
    forall a: Interval, b: Interval ensures NewerFirst(a, b) || NewerFirst(b, a) { LexTotal(a.rule, b.rule); }
    forall a: Interval, b: Interval, c: Interval | NewerFirst(a, b) && NewerFirst(b, c) ensures NewerFirst(a, c) {
      if a.first == b.first && b.first == c.first { LexTransitive(c.rule, b.rule, a.rule); }
    }
  }

  // An interval that still runs is unsure when the latest state of its sources is.
  function Settled(intervals: seq<Interval>, latestUnknown: bool): (r: seq<Interval>)
    ensures |r| == |intervals|
  {
    if latestUnknown && intervals != [] && intervals[|intervals| - 1].state == Ongoing
    then intervals[|intervals| - 1 := intervals[|intervals| - 1].(state := Unsure)]
    else intervals
  }

  // The settled intervals of one rule are those the history determines.
  ghost predicate RuleIntervals(points: seq<Point>, rule: Rule, resolution: int, latestUnknown: bool, settled: seq<Interval>) {
    exists at, intervals ::
      && Reported(Samples(points, rule), |points|, rule.key, resolution, at, intervals)
      && settled == Settled(intervals, latestUnknown)
  }

  predicate LatestUnknown(points: seq<Point>, rule: Rule, stale: set<string>) {
    || points == []
    || Samples(points, rule)[|points| - 1].level == Unknown
    || rule.value in stale
    || (rule.total.Some? && rule.total.value in stale)
  }

  function Flattened(parts: seq<seq<Interval>>): seq<Interval> {
    if parts == [] then [] else Flattened(parts[..|parts| - 1]) + parts[|parts| - 1]
  }

  function HistoryAvailable(history: Option<History>): bool {
    history.Some? && history.value.resolution.Some?
  }

  // What is said of one rule, and the intervals it contributes.
  ghost predicate RuleReported(rule: Rule, current: Values, history: Option<History>, stale: set<string>,
                               report: RuleReport, settled: seq<Interval>)
  {
    && report.key == rule.key
    && report.current == Classify(current, rule)
    && if HistoryAvailable(history) then
         var points := history.value.points;
         && RuleIntervals(points, rule, history.value.resolution.value, LatestUnknown(points, rule, stale), settled)
         && report.history == if LatestUnknown(points, rule, stale) then Unknown
                              else Samples(points, rule)[|points| - 1].level
       else settled == [] && report.history == Unknown
  }

  method ReportRule(rule: Rule, current: Values, history: Option<History>, stale: set<string>)
    returns (report: RuleReport, intervals: seq<Interval>)
    ensures RuleReported(rule, current, history, stale, report, intervals)
  {
    hide Reported, Samples, Classify, RuleIntervals, Scanned;
    intervals := [];
    var latest: Level := Unknown;
    if HistoryAvailable(history) {
      intervals, latest := Scan(history.value.points, rule, history.value.resolution.value);
    }
    var latestUnknown := latest == Unknown || rule.value in stale || (rule.total.Some? && rule.total.value in stale);
    if HistoryAvailable(history) {
      ScannedIntervals(history.value.points, rule, history.value.resolution.value, latestUnknown, intervals);
    }
    intervals := Settled(intervals, latestUnknown);
    report := RuleReport(rule.key, Classify(current, rule),
                         if !HistoryAvailable(history) || latestUnknown then Unknown else latest);
  }

  lemma ScannedIntervals(points: seq<Point>, rule: Rule, resolution: int, latestUnknown: bool, intervals: seq<Interval>)
    requires exists at, active :: Scanned(Samples(points, rule), |points|, rule.key, resolution, at, intervals, active)
    ensures RuleIntervals(points, rule, resolution, latestUnknown, Settled(intervals, latestUnknown))
  {
    hide Samples, Settled, Openings, Describes;
  }

  // The rules of a storage, or of a node or machine.
  function RulesOf(storage: bool): seq<Rule> {
    if storage then [STORAGE_RULE] else [CPU_RULE, MEMORY_RULE]
  }

  lemma ReportedLevels(storage: bool, current: Values, history: Option<History>, stale: set<string>,
                       reports: seq<RuleReport>, parts: seq<seq<Interval>>)
    requires |parts| == |reports| == |RulesOf(storage)|
    requires forall k :: 0 <= k < |parts| ==> RuleReported(RulesOf(storage)[k], current, history, stale, reports[k], parts[k])
    ensures forall k :: 0 <= k < |parts| ==> IsLevel(reports[k].key, current, reports[k].current)
    ensures if storage then |parts| == 1 && reports[0].key == "storage"
            else |parts| == 2 && reports[0].key == "cpu" && reports[1].key == "memory"
  {
    assert forall k :: 0 <= k < |parts| ==> reports[k].key == RulesOf(storage)[k].key;
    forall k | 0 <= k < |parts| ensures IsLevel(reports[k].key, current, reports[k].current) {
      RuleLevels(RulesOf(storage)[k], current);
      assert RuleReported(RulesOf(storage)[k], current, history, stale, reports[k], parts[k]);
    }
    hide RuleReported, IsLevel, Classify;
  }

  method ThresholdReport(storage: bool, current: Values, history: Option<History>, stale: set<string>, limit: nat)
    returns (report: Report, ghost parts: seq<seq<Interval>>)
    ensures report.available <==> HistoryAvailable(history)
    ensures |parts| == |report.rules| == |RulesOf(storage)|
    ensures forall k :: 0 <= k < |parts| ==> RuleReported(RulesOf(storage)[k], current, history, stale, report.rules[k], parts[k])
    ensures forall k :: 0 <= k < |parts| ==> IsLevel(report.rules[k].key, current, report.rules[k].current)
    ensures if storage then |parts| == 1 && report.rules[0].key == "storage"
            else |parts| == 2 && report.rules[0].key == "cpu" && report.rules[1].key == "memory"
    ensures report.count == |Flattened(parts)| && (report.truncated <==> report.count > limit)
    ensures report.intervals == First(Sort(NewerFirst, Flattened(parts)), limit)
  {
    hide RuleReported, RulesOf;
    var rules := RulesOf(storage);
    var reports: seq<RuleReport> := [];
    var all: seq<Interval> := [];
    parts := [];
    var i := 0;
    while i < |rules|
      invariant 0 <= i <= |rules| && |reports| == i && |parts| == i
      invariant all == Flattened(parts)
      invariant forall k :: 0 <= k < i ==> RuleReported(rules[k], current, history, stale, reports[k], parts[k])
    {
      var rule, intervals := ReportRule(rules[i], current, history, stale);
      reports := reports + [rule];
      parts := parts + [intervals];
      assert parts[..|parts| - 1] == parts[..i];
      all := all + intervals;
      i := i + 1;
    }
    ReportedLevels(storage, current, history, stale, reports, parts);
    var sorted := Sort(NewerFirst, all);
    report := Report(HistoryAvailable(history), reports, First(sorted, limit), |all|, |all| > limit);
  }

  // The report keeps the newest intervals: what it leaves out is no newer than what it shows.
  lemma ReportShowsNewest(all: seq<Interval>, limit: nat)
    ensures var sorted := Sort(NewerFirst, all);
            && multiset(sorted) == multiset(all)
            && Ordered(NewerFirst, First(sorted, limit))
            && (forall x, y :: x in First(sorted, limit) && y in sorted[|First(sorted, limit)|..] ==> NewerFirst(x, y))
  {
    NewerFirstOrders();
    SortOrders(NewerFirst, all);
    FirstIsBest(NewerFirst, Sort(NewerFirst, all), limit);
  }
}
