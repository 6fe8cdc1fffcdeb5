/** Kinematics, distance bands and window peaks of compute_peak_intensities_from_tracking:
    for every (match, player, team) group of the tracking table, the time step and
    displacement of each sample, its plausibility-filtered speed, the total, high-speed
    and sprint distances, and for each window length the peak trailing mean of metres
    per minute with the frame and timestamp where that peak window starts. */
module Kinematics {
  import opened Common
  import opened RealSums
  import opened Rolling

  /** One row of the tracking table: one player at one frame, positions in metres. */
  datatype TrackingRow = TrackingRow(
    matchId: int, playerId: int, teamName: string,
    period: int, frame: int, timestamp: Timestamp,
    x: real, y: real)

  datatype GroupKey = GroupKey(matchId: int, playerId: int, teamName: string)

  function KeyOf(r: TrackingRow): GroupKey
  {
    GroupKey(r.matchId, r.playerId, r.teamName)
  }

  /** Window lengths in seconds, high-speed and sprint thresholds in m/s, frames per second. */
  datatype Settings = Settings(windowsSeconds: seq<int>, hsr: real, spr: real, fps: real)

  const DefaultSettings: Settings := Settings([60, 120, 180, 240, 300], 5.28, 6.39, 10.0)

  /** Speeds above this many m/s are tracking glitches and are treated as missing. */
  const MaxPlausibleSpeed: real := 20.0

  /** The square root used for step lengths: only sqrt(0) = 0 and non-negativity are relied on. */
  ghost predicate RootLike(sqrt: real -> real)
  {
    sqrt(0.0) == 0.0 && forall v :: 0.0 <= v ==> 0.0 <= sqrt(v)
  }

  ghost predicate ValidSetup(settings: Settings, sqrt: real -> real)
  {
    settings.fps > 0.0 && RootLike(sqrt)
  }

  // ---------------------------------------------------------------------------
  // Grouping

  /** The order the table is sorted into first: (match, player, period, frame), no repeats. */
  predicate RowBefore(a: TrackingRow, b: TrackingRow)
  {
    a.matchId < b.matchId ||
    (a.matchId == b.matchId &&
      (a.playerId < b.playerId ||
       (a.playerId == b.playerId &&
         (a.period < b.period || (a.period == b.period && a.frame < b.frame)))))
  }

  predicate SortedTable(t: seq<TrackingRow>)
  {
    forall i, j :: 0 <= i < j < |t| ==> RowBefore(t[i], t[j])
  }

  /** A group in (period, frame) order with strictly increasing frames within a period. */
  predicate InPeriodOrder(g: seq<TrackingRow>)
  {
    forall i, j :: 0 <= i < j < |g| ==>
      g[i].period < g[j].period || (g[i].period == g[j].period && g[i].frame < g[j].frame)
  }

  /** The rows of one (match, player, team) group, in table order. */
  function GroupOf(t: seq<TrackingRow>, k: GroupKey): (g: seq<TrackingRow>)
    ensures forall r :: r in g ==> r in t && KeyOf(r) == k
    ensures forall r :: r in t && KeyOf(r) == k ==> r in g
    ensures SortedTable(t) ==> InPeriodOrder(g)
  {
    if |t| == 0 then []
    else
      var rest := GroupOf(t[1..], k);
      assert forall r :: r in t ==> r == t[0] || r in t[1..];
      SortedTail(t);
      if KeyOf(t[0]) == k then
        GroupHeadFirst(t, k, rest);
        [t[0]] + rest
      else rest
  }

  lemma SortedTail(t: seq<TrackingRow>)
    requires |t| > 0
    ensures SortedTable(t) ==> SortedTable(t[1..])
  {
    if SortedTable(t) {
      forall i, j | 0 <= i < j < |t| - 1 ensures RowBefore(t[1..][i], t[1..][j]) {
        assert t[1..][i] == t[i + 1] && t[1..][j] == t[j + 1];
      }
    }
  }

  lemma GroupHeadFirst(t: seq<TrackingRow>, k: GroupKey, rest: seq<TrackingRow>)
    requires |t| > 0 && KeyOf(t[0]) == k
    requires forall r :: r in rest ==> r in t[1..] && KeyOf(r) == k
    requires SortedTable(t) ==> InPeriodOrder(rest)
    ensures SortedTable(t) ==> InPeriodOrder([t[0]] + rest)
  {
    if SortedTable(t) {
      var g := [t[0]] + rest;
      forall i, j | 0 <= i < j < |g|
        ensures g[i].period < g[j].period || (g[i].period == g[j].period && g[i].frame < g[j].frame)
      {
        if i == 0 {
          assert g[j] == rest[j - 1] && g[j] in t[1..];
          var m :| 0 <= m < |t[1..]| && t[1..][m] == g[j];
          assert RowBefore(t[0], t[m + 1]);
        } else {
          assert g[i] == rest[i - 1] && g[j] == rest[j - 1];
        }
      }
    }
  }

  /** `keys` are the distinct group keys of the table, each naming a non-empty group. */
  predicate GroupKeysOf(t: seq<TrackingRow>, keys: seq<GroupKey>)
  {
    && (forall i, j :: 0 <= i < j < |keys| ==> keys[i] != keys[j])
    && (forall r :: r in t ==> KeyOf(r) in keys)
    && (forall k :: k in keys ==> exists r :: r in t && KeyOf(r) == k)
  }

  /** The (match, player, team) keys of the table in order of first appearance. */
  function GroupKeys(t: seq<TrackingRow>): seq<GroupKey>
  {
    if |t| == 0 then []
    else
      var earlier := GroupKeys(t[..|t| - 1]);
      var k := KeyOf(t[|t| - 1]);
      if k in earlier then earlier else earlier + [k]
  }

  /** GroupKeys lists every key of the table once, and only keys of the table. */
  lemma {:induction false} GroupKeysAreTheGroups(t: seq<TrackingRow>)
    ensures GroupKeysOf(t, GroupKeys(t))
  {
    if |t| > 0 {
      var init := t[..|t| - 1];
      var last := t[|t| - 1];
      GroupKeysAreTheGroups(init);
      assert forall r :: r in t <==> r in init || r == last;
    }
  }

  // ---------------------------------------------------------------------------
  // Derived columns of one group

  /** The derived columns of one sample: frame difference, displacement, step length
      and the speed that survived the plausibility filter (None when discarded). */
  datatype Step = Step(frameDiff: int, dx: real, dy: real, stepDistance: real, speed: Option<real>)

  /** The first sample of the group or of a new period has no predecessor. */
  predicate StartsPeriod(g: seq<TrackingRow>, i: int)
    requires 0 <= i < |g|
  {
    i == 0 || g[i - 1].period != g[i].period
  }

  /** Speeds above MaxPlausibleSpeed or below zero become missing. */
  function SpeedFilter(v: real): (kept: Option<real>)
    ensures kept.Some? <==> 0.0 <= v <= MaxPlausibleSpeed
    ensures kept.Some? ==> kept.value == v
  {
    if v > MaxPlausibleSpeed || v < 0.0 then None else Some(v)
  }

  /** Euclidean length of a displacement. */
  function StepLength(sqrt: real -> real, dx: real, dy: real): (d: real)
    requires RootLike(sqrt)
    ensures d >= 0.0
    ensures dx == 0.0 && dy == 0.0 ==> d == 0.0
  {
    assert dx * dx >= 0.0 && dy * dy >= 0.0;
    sqrt(dx * dx + dy * dy)
  }

  function StepAt(g: seq<TrackingRow>, i: int, fps: real, sqrt: real -> real): (st: Step)
    requires 0 <= i < |g| && fps > 0.0 && RootLike(sqrt) && InPeriodOrder(g)
    ensures st.frameDiff >= 1 && st.stepDistance >= 0.0
    ensures StartsPeriod(g, i) ==> st.frameDiff == 1 && st.stepDistance == 0.0 && st.speed == Some(0.0)
    ensures st.speed.Some? ==> 0.0 <= st.speed.value <= MaxPlausibleSpeed
  {
    var first := StartsPeriod(g, i);
    var frameDiff := if first then 1 else g[i].frame - g[i - 1].frame;
    var dx := if first then 0.0 else g[i].x - g[i - 1].x;
    var dy := if first then 0.0 else g[i].y - g[i - 1].y;
    var dist := StepLength(sqrt, dx, dy);
    Step(frameDiff, dx, dy, dist, SpeedFilter(dist / (frameDiff as real / fps)))
  }

  function Steps(g: seq<TrackingRow>, fps: real, sqrt: real -> real): (steps: seq<Step>)
    requires fps > 0.0 && RootLike(sqrt) && InPeriodOrder(g)
    ensures |steps| == |g|
  {
    seq(|g|, k requires 0 <= k < |g| => StepAt(g, k, fps, sqrt))
  }

  /** Speed used for banding: a discarded speed counts as 0 m/s. */
  function BandSpeed(st: Step): real
  {
    match st.speed
    case None => 0.0
    case Some(v) => v
  }

  /** Intensity in metres per minute; a discarded speed counts as 0. */
  function MetersPerMinute(st: Step): real
  {
    match st.speed
    case None => 0.0
    case Some(v) => v * 60.0
  }

  /** Every step length counts toward total distance, discarded speed or not. */
  function DistanceColumn(steps: seq<Step>): (c: seq<real>)
    ensures |c| == |steps|
    ensures forall k :: 0 <= k < |steps| ==> c[k] == steps[k].stepDistance
  {
    seq(|steps|, k requires 0 <= k < |steps| => steps[k].stepDistance)
  }

  /** A step length counts toward a band when its banding speed exceeds the threshold. */
  function BandColumn(steps: seq<Step>, threshold: real): (c: seq<real>)
    ensures |c| == |steps|
    ensures forall k :: 0 <= k < |steps| && BandSpeed(steps[k]) > threshold ==> c[k] == steps[k].stepDistance
    ensures forall k :: 0 <= k < |steps| && BandSpeed(steps[k]) <= threshold ==> c[k] == 0.0
  {
    seq(|steps|, k requires 0 <= k < |steps| =>
      if BandSpeed(steps[k]) > threshold then steps[k].stepDistance else 0.0)
  }

  /** The m/min series the rolling means run over; a discarded speed counts as 0. */
  function IntensityColumn(steps: seq<Step>): (c: seq<real>)
    ensures |c| == |steps|
    ensures forall k :: 0 <= k < |steps| && steps[k].speed.Some? ==> c[k] == steps[k].speed.value * 60.0
    ensures forall k :: 0 <= k < |steps| && steps[k].speed.None? ==> c[k] == 0.0
  {
    seq(|steps|, k requires 0 <= k < |steps| => MetersPerMinute(steps[k]))
  }

  // ---------------------------------------------------------------------------
  // The summary row of one group

  datatype WindowPeak = WindowPeak(value: real, frameStart: int, timeStart: Timestamp)

  /** One output row; `peaks` maps a window length in seconds to its peak columns. */
  datatype PeakRow = PeakRow(
    matchId: int, playerId: int, teamName: string,
    totalDistance: real, highSpeedDistance: real, sprintDistance: real,
    peaks: map<int, WindowPeak>)

  /** Samples in a window of `wSec` seconds. */
  function WindowSize(wSec: int, fps: real): int
  {
    RoundHalfEven(wSec as real * fps)
  }

  /** Peak of the rolling mean, reported at the first sample of the peak window. */
  function PeakOf(g: seq<TrackingRow>, series: seq<real>, size: int): (p: WindowPeak)
    requires |g| == |series| > 0 && size >= 1
    ensures exists pos :: 0 <= pos < |series| && p.value == RollingMean(series, size, pos)
    ensures exists start :: 0 <= start < |g| && p.frameStart == g[start].frame && p.timeStart == g[start].timestamp
  {
    var pos := PeakPos(series, size, |series|);
    var start := WindowStart(pos, size);
    WindowPeak(RollingMean(series, size, pos), g[start].frame, g[start].timestamp)
  }

  /** Peak columns filled window by window; a window spanning no sample is skipped. */
  function PeakMetrics(windows: seq<int>, fps: real, g: seq<TrackingRow>, series: seq<real>): (m: map<int, WindowPeak>)
    requires |g| == |series|
    ensures forall w :: w in m ==> w in windows
    ensures |g| == 0 ==> m == map[]
  {
    if |windows| == 0 then map[]
    else
      var earlier := PeakMetrics(windows[..|windows| - 1], fps, g, series);
      var w := windows[|windows| - 1];
      if |g| > 0 && WindowSize(w, fps) >= 1 then earlier[w := PeakOf(g, series, WindowSize(w, fps))]
      else earlier
  }

  lemma PeakMetricsStep(windows: seq<int>, n: int, fps: real, g: seq<TrackingRow>, series: seq<real>)
    requires 0 <= n < |windows| && |g| == |series|
    ensures PeakMetrics(windows[..n + 1], fps, g, series) ==
      if |g| > 0 && WindowSize(windows[n], fps) >= 1
      then PeakMetrics(windows[..n], fps, g, series)[windows[n] := PeakOf(g, series, WindowSize(windows[n], fps))]
      else PeakMetrics(windows[..n], fps, g, series)
  {
    assert windows[..n + 1][..n] == windows[..n];
  }

  /** The filled columns are exactly the usable windows, each with its peak. */
  lemma {:induction false} PeakMetricsContents(windows: seq<int>, fps: real, g: seq<TrackingRow>, series: seq<real>, w: int)
    requires |g| == |series|
    ensures w in PeakMetrics(windows, fps, g, series) <==> w in windows && |g| > 0 && WindowSize(w, fps) >= 1
    ensures w in PeakMetrics(windows, fps, g, series) ==>
      PeakMetrics(windows, fps, g, series)[w] == PeakOf(g, series, WindowSize(w, fps))
  {
    if |windows| > 0 {
      var init := windows[..|windows| - 1];
      PeakMetricsContents(init, fps, g, series, w);
      assert windows == init + [windows[|windows| - 1]];
    }
  }

  function GroupRow(settings: Settings, sqrt: real -> real, key: GroupKey, g: seq<TrackingRow>): (row: PeakRow)
    requires ValidSetup(settings, sqrt) && InPeriodOrder(g)
    ensures row.matchId == key.matchId && row.playerId == key.playerId && row.teamName == key.teamName
    ensures forall w :: w in row.peaks ==> w in settings.windowsSeconds
  {
    var steps := Steps(g, settings.fps, sqrt);
    PeakRow(key.matchId, key.playerId, key.teamName,
      Sum(DistanceColumn(steps)),
      Sum(BandColumn(steps, settings.hsr)),
      Sum(BandColumn(steps, settings.spr)),
      PeakMetrics(settings.windowsSeconds, settings.fps, g, IntensityColumn(steps)))
  }

  // ---------------------------------------------------------------------------
  // The computation, step by step

  /** Adds the derived columns to a group, one sample at a time. */
  method DeriveSteps(g: seq<TrackingRow>, fps: real, sqrt: real -> real) returns (steps: seq<Step>)
    requires fps > 0.0 && RootLike(sqrt) && InPeriodOrder(g)
    ensures steps == Steps(g, fps, sqrt)
  {
    steps := [];
    for i := 0 to |g|
      invariant |steps| == i
      invariant forall k :: 0 <= k < i ==> steps[k] == StepAt(g, k, fps, sqrt)
    {
      var frameDiff, dx, dy := 1, 0.0, 0.0;
      if i > 0 && g[i - 1].period == g[i].period {
        frameDiff := g[i].frame - g[i - 1].frame;
        dx := g[i].x - g[i - 1].x;
        dy := g[i].y - g[i - 1].y;
      }
      var dist := StepLength(sqrt, dx, dy);
      var speed := dist / (frameDiff as real / fps);
      var kept := if speed > MaxPlausibleSpeed || speed < 0.0 then None else Some(speed);
      steps := steps + [Step(frameDiff, dx, dy, dist, kept)];
    }
  }

  /** Peak of one window: the rolling scan, then the frame and time at the window's start. */
  method WindowPeakAt(g: seq<TrackingRow>, series: seq<real>, size: int) returns (p: WindowPeak)
    requires |g| == |series| > 0 && size >= 1
    ensures p == PeakOf(g, series, size)
  {
    var peak, pos := PeakWindow(series, size);
    var start := if pos - size + 1 < 0 then 0 else pos - size + 1;
    p := WindowPeak(peak, g[start].frame, g[start].timestamp);
  }

  /** One group: derived columns, band sums, and the peak of every usable window. */
  method ComputeGroupRow(settings: Settings, sqrt: real -> real, key: GroupKey, g: seq<TrackingRow>)
    returns (row: PeakRow)
    requires ValidSetup(settings, sqrt) && InPeriodOrder(g)
    ensures row == GroupRow(settings, sqrt, key, g)
  {
    var steps := DeriveSteps(g, settings.fps, sqrt);
    var series := IntensityColumn(steps);
    var windows := settings.windowsSeconds;
    var peaks: map<int, WindowPeak> := map[];
    for n := 0 to |windows|
      invariant peaks == PeakMetrics(windows[..n], settings.fps, g, series)
    {
      PeakMetricsStep(windows, n, settings.fps, g, series);
      var wSec := windows[n];
      var size := WindowSize(wSec, settings.fps);
      if size < 1 || |g| == 0 {
        continue;
      }
      var peak := WindowPeakAt(g, series, size);
      peaks := peaks[wSec := peak];
    }
    assert windows[..|windows|] == windows;
    row := PeakRow(key.matchId, key.playerId, key.teamName,
      Sum(DistanceColumn(steps)),
      Sum(BandColumn(steps, settings.hsr)),
      Sum(BandColumn(steps, settings.spr)),
      peaks);
  }

  /** The row of the group with key `k` in a sorted table. */
  function KeyRow(settings: Settings, sqrt: real -> real, tracking: seq<TrackingRow>, k: GroupKey): PeakRow
    requires ValidSetup(settings, sqrt) && SortedTable(tracking)
  {
    GroupRow(settings, sqrt, k, GroupOf(tracking, k))
  }

  /** Selects one group of the sorted table and computes its row. */
  method ComputeKeyRow(settings: Settings, sqrt: real -> real, tracking: seq<TrackingRow>, k: GroupKey)
    returns (row: PeakRow)
    requires ValidSetup(settings, sqrt) && SortedTable(tracking)
    ensures row == KeyRow(settings, sqrt, tracking, k)
  {
    var g := GroupOf(tracking, k);
    row := ComputeGroupRow(settings, sqrt, k, g);
  }

  /** The whole table: one row per group, in order of the group's first row. */
  method ComputePeakIntensities(tracking: seq<TrackingRow>, settings: Settings, sqrt: real -> real)
    returns (rows: seq<PeakRow>)
    requires ValidSetup(settings, sqrt)
    requires SortedTable(tracking)
    ensures |rows| == |GroupKeys(tracking)|
    ensures forall i :: 0 <= i < |rows| ==> rows[i] == KeyRow(settings, sqrt, tracking, GroupKeys(tracking)[i])
  {
    var keys := GroupKeys(tracking);
    rows := [];
    for i := 0 to |keys|
      invariant |rows| == i
      invariant forall k :: 0 <= k < i ==> rows[k] == KeyRow(settings, sqrt, tracking, keys[k])
    {
      var row := ComputeKeyRow(settings, sqrt, tracking, keys[i]);
      rows := rows + [row];
    }
  }
}

/** Properties of the per-group row that the engine promises. */
module KinematicsProperties {
  import opened Common
  import opened RealSums
  import opened Rolling
  import opened Kinematics

  /** Total distance bounds both bands, and sprint distance stays within high-speed
      distance whenever the sprint threshold is at least the high-speed one. */
  lemma BandsAreNested(settings: Settings, sqrt: real -> real, key: GroupKey, g: seq<TrackingRow>)
    requires ValidSetup(settings, sqrt) && InPeriodOrder(g)
    ensures var row := GroupRow(settings, sqrt, key, g);
      && 0.0 <= row.sprintDistance <= row.totalDistance
      && 0.0 <= row.highSpeedDistance <= row.totalDistance
      && (settings.hsr <= settings.spr ==> row.sprintDistance <= row.highSpeedDistance)
  {
    var steps := Steps(g, settings.fps, sqrt);
    var total := DistanceColumn(steps);
    var high := BandColumn(steps, settings.hsr);
    var sprint := BandColumn(steps, settings.spr);
    SumNonNegative(high);
    SumNonNegative(sprint);
    SumMonotone(high, total);
    SumMonotone(sprint, total);
    if settings.hsr <= settings.spr {
      SumMonotone(sprint, high);
    }
  }

  /** For every usable window the reported value is the largest trailing mean of the
      m/min series, attained first at some position, and the reported frame and time
      are those of the first sample of the window ending there. */
  lemma ReportedPeakIsFirstMaximum(settings: Settings, sqrt: real -> real, key: GroupKey, g: seq<TrackingRow>, w: int)
    requires ValidSetup(settings, sqrt) && InPeriodOrder(g)
    ensures var row := GroupRow(settings, sqrt, key, g);
      var series := IntensityColumn(Steps(g, settings.fps, sqrt));
      var size := WindowSize(w, settings.fps);
      && (w in row.peaks <==> w in settings.windowsSeconds && |g| > 0 && size >= 1)
      && (w in row.peaks ==>
        && (forall j :: 0 <= j < |g| ==> RollingMean(series, size, j) <= row.peaks[w].value)
        && (exists pos ::
              && 0 <= pos < |g|
              && row.peaks[w].value == RollingMean(series, size, pos)
              && (forall j :: 0 <= j < pos ==> RollingMean(series, size, j) < row.peaks[w].value)
              && row.peaks[w].frameStart == g[WindowStart(pos, size)].frame
              && row.peaks[w].timeStart == g[WindowStart(pos, size)].timestamp))
  {
    var series := IntensityColumn(Steps(g, settings.fps, sqrt));
    var size := WindowSize(w, settings.fps);
    PeakMetricsContents(settings.windowsSeconds, settings.fps, g, series, w);
    if w in GroupRow(settings, sqrt, key, g).peaks {
      PeakPosIsFirstMaximum(series, size, |series|);
    }
  }

  /** Every reported peak lies between 0 and 20 m/s expressed in m/min. */
  lemma PeaksWithinPlausibleRange(settings: Settings, sqrt: real -> real, key: GroupKey, g: seq<TrackingRow>, w: int)
    requires ValidSetup(settings, sqrt) && InPeriodOrder(g)
    requires w in GroupRow(settings, sqrt, key, g).peaks
    ensures 0.0 <= GroupRow(settings, sqrt, key, g).peaks[w].value <= MaxPlausibleSpeed * 60.0
  {
    var series := IntensityColumn(Steps(g, settings.fps, sqrt));
    var size := WindowSize(w, settings.fps);
    PeakMetricsContents(settings.windowsSeconds, settings.fps, g, series, w);
    RollingMeanWithin(series, size, PeakPos(series, size, |series|), 0.0, MaxPlausibleSpeed * 60.0);
  }

  /** A step's speed is its length over the elapsed time frame_diff / fps; it is kept
      exactly when it does not exceed MaxPlausibleSpeed (it is never negative). */
  lemma SpeedIsLengthOverElapsedTime(g: seq<TrackingRow>, i: int, fps: real, sqrt: real -> real)
    requires 0 <= i < |g| && fps > 0.0 && RootLike(sqrt) && InPeriodOrder(g)
    ensures var st := StepAt(g, i, fps, sqrt);
      var speed := st.stepDistance * fps / st.frameDiff as real;
      && (!StartsPeriod(g, i) ==>
           && st.frameDiff == g[i].frame - g[i - 1].frame
           && st.stepDistance == StepLength(sqrt, g[i].x - g[i - 1].x, g[i].y - g[i - 1].y))
      && (st.speed.None? <==> speed > MaxPlausibleSpeed)
      && (st.speed.Some? ==> st.speed.value == speed)
  {
    var st := StepAt(g, i, fps, sqrt);
    var fd := st.frameDiff as real;
    var v := st.stepDistance / (fd / fps);
    assert st.speed == SpeedFilter(v);
    OverElapsedTime(st.stepDistance, fd, fps);
  }

  /** Dividing by the elapsed time fd / fps is multiplying by fps / fd, and a length over a
      positive time is never negative. */
  lemma OverElapsedTime(d: real, fd: real, fps: real)
    requires d >= 0.0 && fd > 0.0 && fps > 0.0
    ensures d / (fd / fps) == d * fps / fd >= 0.0
  {
    assert d / (fd / fps) * (fd / fps) == d;
    assert d * fps / fd * fd == d * fps;
  }

  /** A step whose speed was discarded adds nothing to the intensity series nor to a
      band with a non-negative threshold, but its length still adds to total distance. */
  lemma DiscardedSpeedStillCountsAsDistance(steps: seq<Step>, i: int, threshold: real)
    requires 0 <= i < |steps| && steps[i].speed.None? && 0.0 <= threshold
    ensures IntensityColumn(steps)[i] == 0.0
    ensures BandColumn(steps, threshold)[i] == 0.0
    ensures DistanceColumn(steps)[i] == steps[i].stepDistance
  {
  }

  /** A single step of no length and speed 0 gives the one-entry zero columns. */
  lemma ZeroStepColumns(steps: seq<Step>, threshold: real)
    requires |steps| == 1 && steps[0].stepDistance == 0.0 && steps[0].speed == Some(0.0)
    ensures IntensityColumn(steps) == [0.0] && DistanceColumn(steps) == [0.0] && BandColumn(steps, threshold) == [0.0]
  {
    assert IntensityColumn(steps)[0] == 0.0;
    assert DistanceColumn(steps)[0] == 0.0;
    assert BandColumn(steps, threshold)[0] == 0.0;
  }

  /** The only sample of a one-sample group starts its period: no distance, no intensity. */
  lemma SingleSampleColumns(g: seq<TrackingRow>, fps: real, sqrt: real -> real, threshold: real)
    requires fps > 0.0 && RootLike(sqrt) && |g| == 1
    ensures InPeriodOrder(g)
    ensures var steps := Steps(g, fps, sqrt);
      && IntensityColumn(steps) == [0.0] && DistanceColumn(steps) == [0.0] && BandColumn(steps, threshold) == [0.0]
  {
    var steps := Steps(g, fps, sqrt);
    assert steps[0] == StepAt(g, 0, fps, sqrt);
    ZeroStepColumns(steps, threshold);
  }

  /** Over a one-sample zero series every window peaks at 0 m/min at that sample. */
  lemma SingleSamplePeaks(windows: seq<int>, fps: real, g: seq<TrackingRow>, series: seq<real>)
    requires |g| == 1 && series == [0.0]
    ensures forall w :: w in PeakMetrics(windows, fps, g, series) ==>
      PeakMetrics(windows, fps, g, series)[w] == WindowPeak(0.0, g[0].frame, g[0].timestamp)
  {
    forall w | w in PeakMetrics(windows, fps, g, series)
      ensures PeakMetrics(windows, fps, g, series)[w] == WindowPeak(0.0, g[0].frame, g[0].timestamp)
    {
      PeakMetricsContents(windows, fps, g, series, w);
      OneSamplePeak(g, series, WindowSize(w, fps));
    }
  }

  lemma OneSamplePeak(g: seq<TrackingRow>, series: seq<real>, size: int)
    requires |g| == 1 && series == [0.0] && size >= 1
    ensures PeakOf(g, series, size) == WindowPeak(0.0, g[0].frame, g[0].timestamp)
  {
    assert PeakPos(series, size, 1) == 0 && WindowStart(0, size) == 0;
    assert series[0..1] == [0.0] && Sum([0.0]) == 0.0;
    assert RollingMean(series, size, 0) == 0.0;
  }

  /** A group of one sample has no distance, and every window peaks at 0 m/min at that sample. */
  lemma SingleSampleGroup(settings: Settings, sqrt: real -> real, key: GroupKey, g: seq<TrackingRow>)
    requires ValidSetup(settings, sqrt) && |g| == 1
    ensures InPeriodOrder(g)
    ensures var row := GroupRow(settings, sqrt, key, g);
      && row.totalDistance == 0.0 && row.highSpeedDistance == 0.0 && row.sprintDistance == 0.0
      && (forall w :: w in row.peaks ==> row.peaks[w] == WindowPeak(0.0, g[0].frame, g[0].timestamp))
  {
    SingleSampleColumns(g, settings.fps, sqrt, settings.hsr);
    SingleSampleColumns(g, settings.fps, sqrt, settings.spr);
    assert Sum([0.0]) == 0.0;
    SingleSamplePeaks(settings.windowsSeconds, settings.fps, g, IntensityColumn(Steps(g, settings.fps, sqrt)));
  }

  function ScenarioGroup(t0: Timestamp, t1: Timestamp): seq<TrackingRow>
  {
    [TrackingRow(1, 7, "Home", 1, 0, t0, 0.0, 0.0), TrackingRow(1, 7, "Home", 1, 10, t1, 10.0, 0.0)]
  }

  lemma ScenarioSteps(sqrt: real -> real, t0: Timestamp, t1: Timestamp)
    requires RootLike(sqrt) && sqrt(100.0) == 10.0
    ensures InPeriodOrder(ScenarioGroup(t0, t1))
    ensures var steps := Steps(ScenarioGroup(t0, t1), 10.0, sqrt);
      && DistanceColumn(steps) == [0.0, 10.0]
      && BandColumn(steps, 5.28) == [0.0, 10.0]
      && BandColumn(steps, 6.39) == [0.0, 10.0]
      && IntensityColumn(steps) == [0.0, 600.0]
  {
    var g := ScenarioGroup(t0, t1);
    var steps := Steps(g, 10.0, sqrt);
    assert steps[0] == StepAt(g, 0, 10.0, sqrt);
    assert steps[1] == StepAt(g, 1, 10.0, sqrt);
    assert StepLength(sqrt, 10.0, 0.0) == 10.0;
    assert steps[1].speed == Some(10.0);
  }

  lemma ScenarioSums()
    ensures Sum([0.0, 10.0]) == 10.0
    ensures RollingMean([0.0, 600.0], 600, 0) == 0.0
    ensures RollingMean([0.0, 600.0], 600, 1) == 300.0
    ensures PeakPos([0.0, 600.0], 600, 2) == 1
  {
    assert [0.0, 10.0][..1] == [0.0];
    var series := [0.0, 600.0];
    assert series[0..1] == [0.0];
    assert series[0..2] == series;
    assert series[..1] == [0.0];
  }

  /** Two samples ten frames apart at 10 fps, moving 10 m: 10 m/s, above both
      default thresholds, so all three distances are 10 m; the 60 s window (600
      samples) peaks at the mean of 0 and 600 m/min, from the first frame. */
  lemma TwoSampleScenario(sqrt: real -> real, t0: Timestamp, t1: Timestamp)
    requires RootLike(sqrt) && sqrt(100.0) == 10.0
    ensures InPeriodOrder(ScenarioGroup(t0, t1))
    ensures var row := GroupRow(DefaultSettings, sqrt, GroupKey(1, 7, "Home"), ScenarioGroup(t0, t1));
      && row.totalDistance == 10.0 && row.highSpeedDistance == 10.0 && row.sprintDistance == 10.0
      && 60 in row.peaks && row.peaks[60] == WindowPeak(300.0, 0, t0)
  {
    var g := ScenarioGroup(t0, t1);
    ScenarioSteps(sqrt, t0, t1);
    ScenarioSums();
    var series := IntensityColumn(Steps(g, 10.0, sqrt));
    assert WindowSize(60, 10.0) == 600;
    PeakMetricsContents(DefaultSettings.windowsSeconds, 10.0, g, series, 60);
  }
}
