# Worst-case-scenario (WCS) engine — a Dafny model

This project models the WCS engine of `src/wcs_calcs.py`: the three in-memory
computations that turn player tracking data into peak running intensities,
attach to each peak the nearest event of the same player in the same match, and summarise peaks by team.

- **Kinematics, distance bands and rolling peak** (`compute_peak_intensities_from_tracking`).
  Per (match, player, team) group in (period, frame) order: frame difference and
  displacement per period (the first sample of a period gets one frame and no
  displacement), step length, speed = length / (frames / fps), speeds above 20 m/s
  or below 0 discarded, total / high-speed / sprint distance, and for every window
  length the largest trailing rolling mean of the m/min series (partial windows
  at the start allowed) with the frame and time of the first sample of that
  window. Modules `Rolling` (the running-sum scan with a tracked first argmax),
  `Kinematics` (the group loop, the step loop and the window loop) and
  `KinematicsProperties`.
- **Peak–event correlator** (`merge_wcs_peaks_with_events`). Schema checks that
  fail with a `SchemaError` (the source's `KeyError`), peak rows without a start
  frame dropped, events restricted to players with a peak row (`isin`), the casts
  of the three merge keys to integers, which fail on a missing value (the source's
  `ValueError`), a linear scan for
  the event of the same match and player nearest in frames (first on ties), an
  optional tolerance, left-join semantics with missing event fields for unmatched
  rows, and the optional per-team count of event types and sub-types. Modules
  `Correlator` and `CorrelatorProperties`.
- **Team aggregator** (`summarize_team_wcs`). One row per team in ascending name
  order; for every Peak m/min column the mean, minimum and maximum of the team's
  values, or "not available". Modules `TeamAggregate` and `TeamAggregateProperties`.

Supporting modules: `Common` (option, result, table cells), `RealSums` (sum,
minimum, maximum and mean of real sequences), `TextOrder` (code-point order on
strings, sorted distinct names, decimal rendering of integers).

Representation choices:

- Distances, speeds and intensities are `real`. The square root is a parameter
  `sqrt: real -> real` about which only `sqrt(0) == 0` and non-negativity on
  non-negative arguments are assumed (`Kinematics.RootLike`).
- Timestamps are opaque strings; `round(w * fps)` is Python's round-half-to-even
  on the exact real product (`Rolling.RoundHalfEven`).
- A row of the peak table is a `Kinematics.PeakRow`: the three keys, the three
  distances, and a map from window length in seconds to the window's peak value,
  start frame and start time. A window's three columns therefore exist together,
  and a column of the table exists when some row has it (the columns of a table
  built from a list of dicts). The Peak m/min columns that `summarize_team_wcs`
  selects by name are exactly the keys of these maps.
- The event table is a set of column names and a sequence of rows, each a map
  from column name to `Common.Cell` (integer, real, text or missing). Any cell may
  be missing: the player filter (`Correlator.IsPeakPlayer`) keeps a row only when
  its player cell equals a peak player in value, and only the kept rows are cast
  (`Correlator.CastKeyColumns`), so a missing key in any other row is harmless.
  A player column named `match_id` or `frame_start` is renamed away before the
  casts read it (`Correlator.PrepareEvents`): for `match_id` the first cast fails
  on the missing column, for `frame_start` the third one does, after the first two
  casts have run.
- The source sorts the tracking table itself (lines 34 and 42). The model takes
  the table already sorted by (match, player, period, frame) as a precondition
  (`Kinematics.SortedTable`) and proves that every group is then in
  (period, frame) order with strictly increasing frames within a period
  (`Kinematics.GroupOf`). Strictly increasing frames exclude the
  division by a zero frame difference.
- `groupby` over the three keys is modelled by the keys in order of first
  appearance in the sorted table (`Kinematics.GroupKeys`), proved to list every
  key of the table exactly once and no other (`Kinematics.GroupKeysAreTheGroups`).

## Model

| member | source | states |
|---|---|---|
| Kinematics.GroupOf | src/wcs_calcs.py:39-42 | the group holds exactly the table rows with the group's key; in a table sorted by (match, player, period, frame) it is in (period, frame) order with strictly increasing frames inside a period |
| Kinematics.StepLength | src/wcs_calcs.py:49-51 | a step length is never negative and is zero for zero displacement |
| Kinematics.SpeedFilter | src/wcs_calcs.py:56-58 | a speed is kept iff it lies in [0, 20] m/s, and then unchanged |
| Kinematics.StepAt | src/wcs_calcs.py:45-58 | the frame difference is at least 1; the first sample of a period has frame difference 1, length 0 and kept speed 0; a kept speed lies in [0, 20] m/s |
| Kinematics.Steps | src/wcs_calcs.py:45-58 | one derived step per sample of the group |
| Kinematics.DeriveSteps | src/wcs_calcs.py:44-58 | the per-sample loop computes exactly the derived columns: frame difference, displacement, length and plausibility-filtered speed of every sample |
| Kinematics.DistanceColumn | src/wcs_calcs.py:64 | every step length counts toward total distance |
| Kinematics.BandColumn | src/wcs_calcs.py:63-66 | a step length counts toward a band iff its speed, a discarded one taken as 0, exceeds the threshold; otherwise it adds 0 |
| Kinematics.IntensityColumn | src/wcs_calcs.py:60-78 | the m/min series is the kept speed times 60, and 0 for a discarded speed |
| Kinematics.PeakOf | src/wcs_calcs.py:84-100 | the reported value is the rolling mean at some position, and the reported frame and time are those of one sample of the group |
| Kinematics.PeakMetrics | src/wcs_calcs.py:69-100 | only configured windows are reported, and none for an empty group |
| Kinematics.PeakMetricsContents | src/wcs_calcs.py:69-100 | the peak dictionary holds exactly the configured windows whose size round(w·fps) is at least 1 (for a non-empty group), each with the peak of that window |
| Kinematics.WindowPeakAt | src/wcs_calcs.py:77-100 | one window's peak value, and the frame and timestamp of the sample where the peak window starts |
| Kinematics.ComputeGroupRow | src/wcs_calcs.py:42-112 | the row of one group: its keys, the three distance sums and the peaks of all usable windows, filled window by window in configuration order |
| Kinematics.GroupRow | src/wcs_calcs.py:102-111 | the row carries the group's match, player and team, and peaks only for configured windows |
| Kinematics.GroupKeysAreTheGroups | src/wcs_calcs.py:39-41 | the group keys are distinct, every row's key is among them, and each names at least one row |
| Kinematics.ComputeKeyRow | src/wcs_calcs.py:39-112 | selecting a key's rows from the sorted table and computing their row gives the row of that group |
| Kinematics.ComputePeakIntensities | src/wcs_calcs.py:30-115 | one output row per group, in the order of the group keys, each the row of that key's group |
| Rolling.RoundHalfEven | src/wcs_calcs.py:71 | the result is within 0.5 of the argument and, on a tie, even |
| Rolling.WindowStart | src/wcs_calcs.py:93 | 0 <= start <= pos, the window from start to pos has at most size samples, and exactly size unless it starts at 0 |
| Rolling.PeakPosIsFirstMaximum | src/wcs_calcs.py:84-91 | the peak position attains the maximum rolling mean and every earlier position is strictly below it (first argmax) |
| Rolling.RollingMeanWithin | src/wcs_calcs.py:78-81 | a trailing mean of values in [lo, hi] lies in [lo, hi] |
| Rolling.AdvanceWindow | src/wcs_calcs.py:78-81 | adding the new sample and dropping the one leaving the window gives the sum of the trailing window ending at i |
| Rolling.ScanStep | src/wcs_calcs.py:78-91 | one step of the scan gives the sum of the window ending at i and the first position of the largest mean up to i |
| Rolling.PeakWindow | src/wcs_calcs.py:78-93 | the running-sum scan returns the first position of the largest trailing mean (min_periods=1) and that mean: no position has a larger mean, no earlier one an equal mean |
| RealSums.SumMonotone | src/wcs_calcs.py:107-109 | a pointwise smaller column has a smaller sum |
| RealSums.MeanBetweenMinAndMax | src/wcs_calcs.py:383-386 | the mean of a non-empty column lies between its minimum and maximum |
| KinematicsProperties.BandsAreNested | src/wcs_calcs.py:63-66 | 0 <= high-speed <= total and 0 <= sprint <= total, and sprint <= high-speed whenever the sprint threshold is at least the high-speed threshold |
| KinematicsProperties.ReportedPeakIsFirstMaximum | src/wcs_calcs.py:71-100 | a window is reported iff it is configured, the group is non-empty and its size is at least 1; its value is the largest trailing mean, first attained at some position whose window start gives the reported frame and time |
| KinematicsProperties.PeaksWithinPlausibleRange | src/wcs_calcs.py:57-85 | every reported peak lies in [0, 20·60] m/min |
| KinematicsProperties.SpeedIsLengthOverElapsedTime | src/wcs_calcs.py:45-58 | after the first sample of a period, frame difference and length are the differences to the previous sample; speed is length·fps / frame difference and is discarded iff it exceeds 20 m/s |
| KinematicsProperties.OverElapsedTime | src/wcs_calcs.py:46-54 | a length over the elapsed time frames / fps is the length times fps over the frames, and never negative |
| KinematicsProperties.DiscardedSpeedStillCountsAsDistance | src/wcs_calcs.py:60-66 | a discarded speed contributes 0 to m/min and to every band with a non-negative threshold, but its step length still counts toward total distance |
| KinematicsProperties.SingleSampleGroup | src/wcs_calcs.py:45-100 | a one-sample group has zero distances and every window peaks at 0 m/min at its only sample |
| KinematicsProperties.TwoSampleScenario | src/wcs_calcs.py:45-112 | two samples 10 frames apart moving 10 m with the default settings: all three distances are 10 m and the 60 s window peaks at 300 m/min from the first frame |
| TextOrder.SortedDistinct | src/wcs_calcs.py:379 | the team names strictly ascending, each present name exactly once |
| Correlator.MissingPeakColumnsOf | src/wcs_calcs.py:166-174 | the required peak columns that are absent, and it is empty iff all are present |
| Correlator.MissingEventColumnsOf | src/wcs_calcs.py:205-206 | the required event columns that are absent, and it is empty iff all are present |
| Correlator.CheckSchema | src/wcs_calcs.py:174-208 | missing peak columns are reported first and exactly when some required one is absent, naming exactly the absent ones; otherwise a missing player column is reported exactly when it is absent; otherwise missing event keys are reported exactly when match_id or frame_start is absent, naming exactly the absent ones; no other error |
| Correlator.CastToInt | src/wcs_calcs.py:217-219 | an integer casts to itself, a real truncates toward zero, and a missing value or text does not cast |
| Correlator.CastRow | src/wcs_calcs.py:217-219 | after the casts the merge keys hold the integer values and every other column is unchanged |
| Correlator.CastKeyColumns | src/wcs_calcs.py:217-219 | the casts succeed iff every kept row's three merge keys cast, giving each row cast in order; otherwise the first column in cast order (match_id, player, frame_start) with a value that does not cast is reported |
| Correlator.PrepareEvents | src/wcs_calcs.py:214-219 | the kept events are cast iff the player column is neither match_id nor frame_start and all their keys cast; a player column match_id is reported as renamed away before any cast; for frame_start a failed match_id or player cast comes first, and the renamed column is reported exactly when both casts succeed |
| Correlator.PeakColumnName | src/wcs_calcs.py:162 | the peak column name starts with "P", so it never equals an event column of the merge |
| Correlator.PeakSlices | src/wcs_calcs.py:180-192 | a slice is kept for every peak row that has the window's start frame, and every slice is the projection of such a row |
| Correlator.PeakSlicesOfConcat | src/wcs_calcs.py:192 | dropping rows without a start frame works row by row and keeps the order |
| Correlator.PeakSlicesOfOne | src/wcs_calcs.py:180-192 | one peak row gives its slice when it has the window, and nothing otherwise |
| Correlator.Candidates | src/wcs_calcs.py:210-213 | the kept events are exactly the event rows whose player cell is, in value, the player of some peak row |
| Correlator.CandidatesOfConcat | src/wcs_calcs.py:211-213 | the player filter works row by row and keeps the table order |
| Correlator.CandidatesOfOne | src/wcs_calcs.py:211-213 | one event row is kept iff its player is a peak player |
| Correlator.NearestIndex | src/wcs_calcs.py:229-247 | a found event is of the peak's match and player |
| Correlator.NearestIsFirstClosest | src/wcs_calcs.py:229-247 | no event is found iff the match and player have none; otherwise no event of theirs is nearer in frames and every earlier one is strictly farther |
| Correlator.FindNearestEvent | src/wcs_calcs.py:229-248 | the linear scan returns the first event of the peak's match and player at the smallest frame distance |
| Correlator.MatchOf | src/wcs_calcs.py:245-262 | an accepted event belongs to the peak's match and player |
| Correlator.MergeOne | src/wcs_calcs.py:234-271 | the merged row keeps the peak columns; an unmatched row gets the six missing event fields; a matched row gets exactly the event's columns other than the player column and the peak row's own columns, each with the event's value |
| Correlator.MergePeakRow | src/wcs_calcs.py:224-271 | one merged row: missing event fields when there is no event or the nearest is beyond the tolerance, else the nearest event's columns that the peak row does not have |
| Correlator.MergeRows | src/wcs_calcs.py:222-273 | one merged row per kept peak row, in input order |
| Correlator.Tags | src/wcs_calcs.py:295-303 | every tag has an event type and a sub-type (never missing) |
| Correlator.CountsNest | src/wcs_calcs.py:306-325 | a sub-type count never exceeds its type count, which never exceeds the team's count |
| Correlator.CountsPositive | src/wcs_calcs.py:320-325 | every (team, type, sub-type) that occurs is counted at least once |
| Correlator.EntryFor | src/wcs_calcs.py:306-333 | an entry's type count and sub-type count are the sizes of its (team, type) and (team, type, sub-type) groups, with 1 <= sub-type count <= type count <= team count, and its percentage is the type count over the team's count times 100, in (0, 100] |
| Correlator.TeamEventSummary | src/wcs_calcs.py:278-333 | an error iff the merged table is non-empty and lacks the event type or sub-type column; otherwise exactly one entry per counted (team, type, sub-type) |
| Correlator.MergeWcsPeaksWithEvents | src/wcs_calcs.py:161-333 | a schema error is reported in the source's order and nothing else is produced; then a key column renamed away or a failed cast of a kept event's merge key, in the order the source meets them; otherwise one merged row per kept peak row matched against the cast candidate events, and, when asked, the team event summary or its missing-column error |
| CorrelatorProperties.SchemaAcceptedExactly | src/wcs_calcs.py:174-208 | the schema checks pass iff some peak row has the window and the event table has match_id, the player column and frame_start |
| CorrelatorProperties.MatchIsNearestWithinTolerance | src/wcs_calcs.py:234-262 | no match iff the player has no event in the match or all of them are farther than the tolerance; a match is within the tolerance, nearest, and first among equally near events |
| CorrelatorProperties.ZeroToleranceMatchesExactFrame | src/wcs_calcs.py:250-269 | with tolerance 0 a peak is matched iff an event of its match and player starts on the peak window's first frame, and the merged row then carries that frame |
| CorrelatorProperties.UnmatchedPeakGetsMissingEventFields | src/wcs_calcs.py:234-243 | a peak whose player has no event in the match keeps its values and gets the six event fields missing, so it has no event type |
| CorrelatorProperties.EventFieldsAvoidPeakColumns | src/wcs_calcs.py:265-269 | the peak values are kept and no attached event column has the name of a peak-row column |
| CorrelatorProperties.CandidatesKeepNearest | src/wcs_calcs.py:210-247 | restricting events to players with a peak row does not change the event chosen for any peak row |
| CorrelatorProperties.RestrictionKeepsMerge | src/wcs_calcs.py:210-271 | merging against the restricted events gives the same table as against all events |
| CorrelatorProperties.TagsOfConcat | src/wcs_calcs.py:298-303 | the counted rows of two tables are those of each, in order |
| CorrelatorProperties.UnmatchedRowsAreNotCounted | src/wcs_calcs.py:298 | rows without an event type change no count of the summary |
| CorrelatorProperties.UnmatchedHaveNoTags | src/wcs_calcs.py:298 | a table of unmatched rows contributes no counted row |
| CorrelatorProperties.TagsOfOne | src/wcs_calcs.py:298-303 | one merged row gives one tag iff it has an event type, with a missing sub-type counted as "No Sub-Type" |
| CorrelatorProperties.MergeAllOfConcat | src/wcs_calcs.py:222-273 | merging works peak row by peak row, in order |
| CorrelatorProperties.OneMergedRowPerPeakRow | src/wcs_calcs.py:192-273 | every peak row with a start frame for the window yields exactly one merged row at its own position, and a row without one yields none |
| TeamAggregate.PeakWindowsAreReported | src/wcs_calcs.py:371-374 | the summarised columns are exactly the windows some peak row reports |
| TeamAggregate.Teams | src/wcs_calcs.py:379 | the teams strictly ascending, exactly the team names of the table |
| TeamAggregate.ColumnValuesAreTeamPeaks | src/wcs_calcs.py:383 | the values of a column within a team are exactly the team's non-missing peaks for that window |
| TeamAggregate.ColumnValuesOfConcat | src/wcs_calcs.py:383 | a column's values are collected row by row in table order, so equal peaks of two players both count |
| TeamAggregate.ColumnValuesOfOne | src/wcs_calcs.py:383 | one row contributes its peak iff it belongs to the team and has the window |
| TeamAggregate.ColumnStat | src/wcs_calcs.py:383-391 | "N/A" iff there are no values; otherwise the mean is the sum over the count, and minimum and maximum are values bounding all of them, with the mean between |
| TeamAggregate.TeamRow | src/wcs_calcs.py:380-392 | a team row has the team's name and a cell for exactly the Peak m/min columns, each the statistic of the team's values |
| TeamAggregate.SummarizeTeam | src/wcs_calcs.py:380-392 | the column loop fills every Peak m/min column of one team with its statistic |
| TeamAggregate.SummarizeTeamWcs | src/wcs_calcs.py:364-396 | the team loop yields the summary table, or the error of grouping an empty table |
| TeamAggregate.TeamSummaries | src/wcs_calcs.py:364-396 | an error iff the table is empty; otherwise one row per team, in team order, each the team's row |
| TeamAggregateProperties.OneRowPerTeamInOrder | src/wcs_calcs.py:379-396 | an error iff the table is empty; otherwise one row per team present, each once, strictly ascending by name |
| TeamAggregateProperties.CellsCoverReportedWindows | src/wcs_calcs.py:371-392 | a team row has a cell for exactly the windows some peak row reports |
| TeamAggregateProperties.CellSummarizesTheTeamsPeaks | src/wcs_calcs.py:383-391 | a cell is "N/A" iff no player of the team has that peak; otherwise its mean is the sum of the team's peaks over their number, and its minimum and maximum are peaks of the team bounding all others |

## Left out

- Timestamp parsing with `pd.to_datetime` (line 33): timestamps are opaque values carried through unchanged.
- The sorts of lines 34 and 42: taken as the precondition `Kinematics.SortedTable`, with strictly increasing frames within a period; duplicate frames (a zero frame difference, and the NaN or infinite speed it causes) are not modelled.
- Group order of `groupby` (lines 39-41): groups come in order of their first row in the sorted table, which is `groupby`'s ascending key order as long as no player appears under two team names in one match. Rows with a missing key, which `groupby` drops, are not representable.
- Floating point: `np.sqrt` is an abstract non-negative function, all arithmetic is exact real arithmetic, and NaN is modelled as a missing value (`Option`, `Common.Null`).
- `astype(int)` casts of the peak table (lines 195-197): the peak table's keys and start frames are integers by construction.
- Correlator.CastToInt: a text cell does not cast, although numpy parses a numeric string such as "7"; infinite reals are not representable.
- Index labels: `idxmax`, `get_loc` and `events_sub.loc[idx_closest]` are modelled with positions, which assumes unique index labels.
- Duplicate column labels: an event table that already has a `player_id` column besides a different player column is excluded by `Correlator.WellFormedEvents`, because renaming then gives two `player_id` columns and the result of reading and assigning that label depends on pandas' handling of duplicate labels.
- Settings with fps <= 0 are excluded by `Kinematics.ValidSetup`; the source runs with them (infinite or negative time steps, so speeds of 0 or discarded, and no window of at least one sample).
- Formatting: the f-string "mean (min – max)" with one decimal (line 389) is modelled as the three numbers (`TeamAggregate.Stat`); `.round(2)` of the percentage (line 317) is not modelled.
- Presentation of the event summary (lines 336-359): renaming, row ordering and column order are left out; the summary is the set of its entries. The unused `team_id` and peak columns kept at lines 286-293 play no part in the counts and are left out.
- Correlator.MergeWcsPeaksWithEvents: the merged table is a sequence of (peak columns, event fields) pairs rather than one table with the union of all columns; a column missing from a row reads as missing (`Correlator.EventCell`).
- `src/utils.py` (data download, caching and table rendering) and `src/wcs_movement_sequences.py` (plotting and widgets) are not part of this model.
