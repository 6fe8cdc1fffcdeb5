/** The peak-event correlator of merge_wcs_peaks_with_events: checks the two tables'
    schemas, keeps the peak rows that have a start frame for the chosen window, and
    attaches to each the event of the same match and player whose start frame is
    nearest to the peak window's start frame (left-join semantics, optional tolerance),
    with an optional per-team count of the attached event types and sub-types. */
module Correlator {
  import opened Common
  import opened TextOrder
  import opened Kinematics

  // ---------------------------------------------------------------------------
  // Tables

  /** The external event table: its column names and one map per row. */
  datatype EventTable = EventTable(columns: set<string>, rows: seq<map<string, Cell>>)

  /** The peak-table columns the correlator needs for the chosen window. */
  datatype PeakColumn =
    | MatchIdColumn | PlayerIdColumn | TeamNameColumn
    | PeakValueColumn | PeakFrameStartColumn | PeakTimeStartColumn

  /** The source raises an exception in each of these cases: KeyError for a missing
      column, ValueError when a merge key does not cast to an integer. */
  datatype SchemaError =
    | MissingPeakColumns(window: int, missingPeak: seq<PeakColumn>)
    | PlayerColumnNotFound(column: string)
    | MissingEventColumns(missingEvent: seq<string>)
    | KeyColumnRenamed(column: string)
    | KeyCastFailed(column: string)
    | MissingSummaryColumn(column: string)

  const RequiredPeakColumns: seq<PeakColumn> :=
    [MatchIdColumn, PlayerIdColumn, TeamNameColumn, PeakValueColumn, PeakFrameStartColumn, PeakTimeStartColumn]

  /** A table built from rows has a column when some row has it; the key columns
      are in every row, the window's columns only in rows that computed the window. */
  predicate HasPeakColumn(peaks: seq<PeakRow>, w: int, c: PeakColumn)
  {
    match c
    case MatchIdColumn => |peaks| > 0
    case PlayerIdColumn => |peaks| > 0
    case TeamNameColumn => |peaks| > 0
    case _ => exists r :: r in peaks && w in r.peaks
  }

  /** The required peak columns that are absent, in the order they are required. */
  function MissingPeakColumnsOf(required: seq<PeakColumn>, peaks: seq<PeakRow>, w: int): (missing: seq<PeakColumn>)
    ensures forall c :: c in missing <==> c in required && !HasPeakColumn(peaks, w, c)
    ensures |missing| == 0 <==> forall c :: c in required ==> HasPeakColumn(peaks, w, c)
  {
    if |required| == 0 then []
    else
      (if HasPeakColumn(peaks, w, required[0]) then [] else [required[0]])
      + MissingPeakColumnsOf(required[1..], peaks, w)
  }

  /** The required event columns that are absent, in the order they are required. */
  function MissingEventColumnsOf(required: seq<string>, present: set<string>): (missing: seq<string>)
    ensures forall c :: c in missing <==> c in required && c !in present
    ensures |missing| == 0 <==> forall c :: c in required ==> c in present
  {
    if |required| == 0 then []
    else
      (if required[0] in present then [] else [required[0]])
      + MissingEventColumnsOf(required[1..], present)
  }

  /** The schema errors of the two tables, in the order the source checks for them;
      None when the merge can go on to filter the events. */
  function CheckSchema(peaks: seq<PeakRow>, events: EventTable, w: int, playerCol: string): (err: Option<SchemaError>)
    ensures (exists c :: c in RequiredPeakColumns && !HasPeakColumn(peaks, w, c)) <==> err.Some? && err.value.MissingPeakColumns?
    ensures err.Some? && err.value.MissingPeakColumns? ==>
      err.value.window == w && forall c :: c in err.value.missingPeak <==> c in RequiredPeakColumns && !HasPeakColumn(peaks, w, c)
    ensures err.Some? && err.value.PlayerColumnNotFound? <==>
      (forall c :: c in RequiredPeakColumns ==> HasPeakColumn(peaks, w, c)) && playerCol !in events.columns
    ensures err.Some? && err.value.PlayerColumnNotFound? ==> err.value.column == playerCol
    ensures err.Some? && err.value.MissingEventColumns? <==>
      && (forall c :: c in RequiredPeakColumns ==> HasPeakColumn(peaks, w, c))
      && playerCol in events.columns
      && ("match_id" !in events.columns || "frame_start" !in events.columns)
    ensures err.Some? && err.value.MissingEventColumns? ==>
      forall c :: c in err.value.missingEvent <==> c in ["match_id", playerCol, "frame_start"] && c !in events.columns
    ensures err.Some? ==> err.value.MissingPeakColumns? || err.value.PlayerColumnNotFound? || err.value.MissingEventColumns?
  {
    var missingPeak := MissingPeakColumnsOf(RequiredPeakColumns, peaks, w);
    var missingEvent := MissingEventColumnsOf(["match_id", playerCol, "frame_start"], events.columns);
    if |missingPeak| > 0 then Some(MissingPeakColumns(w, missingPeak))
    else if playerCol !in events.columns then Some(PlayerColumnNotFound(playerCol))
    else if |missingEvent| > 0 then Some(MissingEventColumns(missingEvent))
    else None
  }

  /** The merge keys of an event row are present and hold integers. */
  predicate Keyed(e: map<string, Cell>, playerCol: string)
  {
    && "match_id" in e && e["match_id"].IntCell?
    && playerCol in e && e[playerCol].IntCell?
    && "frame_start" in e && e["frame_start"].IntCell?
  }

  /** Every row has exactly the table's columns, and renaming the player column cannot
      create a second player_id column. */
  predicate WellFormedEvents(events: EventTable, playerCol: string)
  {
    && (playerCol == "player_id" || "player_id" !in events.columns)
    && forall e :: e in events.rows ==> e.Keys == events.columns
  }

  /** `isin` against the peak players: a numeric cell equal in value to one of them. */
  predicate IsPeakPlayer(c: Cell, players: set<int>)
  {
    match c
    case IntCell(i) => i in players
    case RealCell(r) => r == r.Floor as real && r.Floor in players
    case _ => false
  }

  /** `astype(int)` on one cell: integers stay, reals are truncated toward zero, and a
      missing value or text does not cast. */
  function CastToInt(c: Cell): (n: Option<int>)
    ensures c.IntCell? ==> n == Some(c.i)
    ensures c.RealCell? ==> n.Some? && Abs(n.value) as real <= (if c.r < 0.0 then -c.r else c.r) < Abs(n.value) as real + 1.0
    ensures c.RealCell? && n.Some? && n.value != 0 ==> (n.value < 0 <==> c.r < 0.0)
    ensures (c.Null? || c.TextCell?) <==> n.None?
  {
    match c
    case IntCell(i) => Some(i)
    case RealCell(r) => Some(if r < 0.0 then -((-r).Floor) else r.Floor)
    case _ => None
  }

  predicate CastsKey(e: map<string, Cell>, col: string)
  {
    col in e && CastToInt(e[col]).Some?
  }

  predicate CastsKeys(e: map<string, Cell>, playerCol: string)
  {
    CastsKey(e, "match_id") && CastsKey(e, playerCol) && CastsKey(e, "frame_start")
  }

  /** An event row after the three casts: the merge keys hold their integer values and
      every other column is unchanged. */
  function CastRow(e: map<string, Cell>, playerCol: string): (c: map<string, Cell>)
    requires CastsKeys(e, playerCol)
    ensures c.Keys == e.Keys && Keyed(c, playerCol)
    ensures forall col :: col in {"match_id", playerCol, "frame_start"} ==> c[col] == IntCell(CastToInt(e[col]).value)
    ensures forall col :: col in e && col !in {"match_id", playerCol, "frame_start"} ==> c[col] == e[col]
  {
    e["match_id" := IntCell(CastToInt(e["match_id"]).value)]
     [playerCol := IntCell(CastToInt(e[playerCol]).value)]
     ["frame_start" := IntCell(CastToInt(e["frame_start"]).value)]
  }

  /** The casts of match_id, the (renamed) player column and frame_start, in that order,
      over the kept event rows; the first column holding a value that does not cast fails. */
  function CastKeyColumns(rows: seq<map<string, Cell>>, playerCol: string): (r: Result<seq<map<string, Cell>>, SchemaError>)
    ensures r.Ok? <==> forall e :: e in rows ==> CastsKeys(e, playerCol)
    ensures r.Ok? ==> |r.value| == |rows| && forall i :: 0 <= i < |rows| ==> r.value[i] == CastRow(rows[i], playerCol)
    ensures r.Err? ==> r.error.KeyCastFailed?
    ensures (exists e :: e in rows && !CastsKey(e, "match_id")) ==> r == Err(KeyCastFailed("match_id"))
    ensures (forall e :: e in rows ==> CastsKey(e, "match_id")) && (exists e :: e in rows && !CastsKey(e, playerCol)) ==>
      r == Err(KeyCastFailed("player_id"))
    ensures (forall e :: e in rows ==> CastsKey(e, "match_id") && CastsKey(e, playerCol)) && (exists e :: e in rows && !CastsKey(e, "frame_start")) ==>
      r == Err(KeyCastFailed("frame_start"))
  {
    if exists e :: e in rows && !CastsKey(e, "match_id") then Err(KeyCastFailed("match_id"))
    else if exists e :: e in rows && !CastsKey(e, playerCol) then Err(KeyCastFailed("player_id"))
    else if exists e :: e in rows && !CastsKey(e, "frame_start") then Err(KeyCastFailed("frame_start"))
    else Ok(seq(|rows|, i requires 0 <= i < |rows| => CastRow(rows[i], playerCol)))
  }

  /** Renaming the player column to player_id and casting the three merge keys of the
      kept event rows. Renaming match_id away makes the first cast read a column that
      is gone; renaming frame_start away lets the first two casts run and makes the
      third read a column that is gone. */
  function PrepareEvents(rows: seq<map<string, Cell>>, playerCol: string): (r: Result<seq<map<string, Cell>>, SchemaError>)
    ensures r.Ok? <==> playerCol != "match_id" && playerCol != "frame_start" && forall e :: e in rows ==> CastsKeys(e, playerCol)
    ensures r.Ok? ==> |r.value| == |rows| && forall i :: 0 <= i < |rows| ==> r.value[i] == CastRow(rows[i], playerCol)
    ensures playerCol == "match_id" ==> r == Err(KeyColumnRenamed("match_id"))
    ensures playerCol != "match_id" && (exists e :: e in rows && !CastsKeys(e, playerCol)) ==> r.Err? && r.error.KeyCastFailed?
    ensures playerCol != "match_id" && (exists e :: e in rows && !CastsKey(e, "match_id")) ==> r == Err(KeyCastFailed("match_id"))
    ensures r == Err(KeyColumnRenamed("frame_start")) <==>
      playerCol == "frame_start" && forall e :: e in rows ==> CastsKeys(e, playerCol)
  {
    if playerCol == "match_id" then Err(KeyColumnRenamed("match_id"))
    else
      var cast := CastKeyColumns(rows, playerCol);
      if cast.Err? then cast
      else if playerCol == "frame_start" then Err(KeyColumnRenamed("frame_start"))
      else cast
  }

  // ---------------------------------------------------------------------------
  // The peak rows that take part

  /** The columns of one peak row for the chosen window, frame and time renamed. */
  datatype PeakSlice = PeakSlice(
    matchId: int, playerId: int, teamName: string,
    peakValue: real, framePeakStart: int, timePeakStart: Timestamp)

  function SliceOf(r: PeakRow, w: int): PeakSlice
    requires w in r.peaks
  {
    PeakSlice(r.matchId, r.playerId, r.teamName, r.peaks[w].value, r.peaks[w].frameStart, r.peaks[w].timeStart)
  }

  /** Rows without a start frame for the window are dropped; the others keep their order. */
  function PeakSlices(peaks: seq<PeakRow>, w: int): (slices: seq<PeakSlice>)
    ensures |slices| <= |peaks|
    ensures forall r :: r in peaks && w in r.peaks ==> SliceOf(r, w) in slices
    ensures forall s :: s in slices ==> exists r :: r in peaks && w in r.peaks && s == SliceOf(r, w)
  {
    if |peaks| == 0 then []
    else
      var rest := PeakSlices(peaks[1..], w);
      assert forall r :: r in peaks[1..] ==> r in peaks;
      assert forall r :: r in peaks ==> r == peaks[0] || r in peaks[1..];
      if w in peaks[0].peaks then [SliceOf(peaks[0], w)] + rest else rest
  }

  /** Dropping rows works row by row and keeps the order: the slices of two tables
      are those of each, one after the other. */
  lemma {:induction false} PeakSlicesOfConcat(a: seq<PeakRow>, b: seq<PeakRow>, w: int)
    ensures PeakSlices(a + b, w) == PeakSlices(a, w) + PeakSlices(b, w)
  {
    if |a| > 0 {
      assert (a + b)[1..] == a[1..] + b;
      PeakSlicesOfConcat(a[1..], b, w);
    } else {
      assert a + b == b;
    }
  }

  /** One peak row gives one slice when it has the window, and none otherwise. */
  lemma PeakSlicesOfOne(r: PeakRow, w: int)
    ensures PeakSlices([r], w) == if w in r.peaks then [SliceOf(r, w)] else []
  {
    assert [r][1..] == [];
  }

  function PeakPlayers(slices: seq<PeakSlice>): set<int>
  {
    set s | s in slices :: s.playerId
  }

  /** An event row survives the `isin` filter when its player is one of the peak players. */
  predicate Kept(e: map<string, Cell>, playerCol: string, players: set<int>)
  {
    playerCol in e && IsPeakPlayer(e[playerCol], players)
  }

  /** Events of players that appear among the peak rows, in table order. */
  function Candidates(rows: seq<map<string, Cell>>, playerCol: string, players: set<int>): (c: seq<map<string, Cell>>)
    ensures forall e: map<string, Cell> :: e in c <==> e in rows && Kept(e, playerCol, players)
  {
    if |rows| == 0 then []
    else
      var init := Candidates(rows[..|rows| - 1], playerCol, players);
      var last := rows[|rows| - 1];
      assert forall e :: e in rows <==> e in rows[..|rows| - 1] || e == last;
      if Kept(last, playerCol, players) then init + [last] else init
  }

  /** The filter works row by row and keeps the table order. */
  lemma {:induction false} CandidatesOfConcat(a: seq<map<string, Cell>>, b: seq<map<string, Cell>>, playerCol: string, players: set<int>)
    ensures Candidates(a + b, playerCol, players) == Candidates(a, playerCol, players) + Candidates(b, playerCol, players)
  {
    if |b| > 0 {
      var b0 := b[..|b| - 1];
      assert (a + b)[..|a + b| - 1] == a + b0;
      CandidatesOfConcat(a, b0, playerCol, players);
    } else {
      assert a + b == a;
    }
  }

  /** One event row is kept exactly when its player is a peak player. */
  lemma CandidatesOfOne(e: map<string, Cell>, playerCol: string, players: set<int>)
    ensures Candidates([e], playerCol, players) == if Kept(e, playerCol, players) then [e] else []
  {
    assert [e][..0] == [];
  }

  // ---------------------------------------------------------------------------
  // Nearest event

  predicate SameMatchPlayer(e: map<string, Cell>, playerCol: string, p: PeakSlice)
  {
    Keyed(e, playerCol) && e["match_id"].i == p.matchId && e[playerCol].i == p.playerId
  }

  /** Absolute distance, in frames, from an event's start to the peak window's start. */
  function FrameDistance(e: map<string, Cell>, p: PeakSlice): nat
    requires "frame_start" in e && e["frame_start"].IntCell?
  {
    Abs(e["frame_start"].i - p.framePeakStart)
  }

  /** Index of the first event of the peak's match and player at the smallest frame distance. */
  function NearestIndex(rows: seq<map<string, Cell>>, playerCol: string, p: PeakSlice): (r: Option<nat>)
    ensures r.Some? ==> r.value < |rows| && SameMatchPlayer(rows[r.value], playerCol, p)
  {
    if |rows| == 0 then None
    else
      var last := |rows| - 1;
      var best := NearestIndex(rows[..last], playerCol, p);
      if !SameMatchPlayer(rows[last], playerCol, p) then best
      else if best.None? || FrameDistance(rows[last], p) < FrameDistance(rows[best.value], p) then Some(last)
      else best
  }

  /** NearestIndex finds nothing exactly when the peak's match and player have no
      event; otherwise no event of theirs is nearer, and every earlier one is farther. */
  lemma {:induction false} NearestIsFirstClosest(rows: seq<map<string, Cell>>, playerCol: string, p: PeakSlice)
    ensures NearestIndex(rows, playerCol, p).None? <==>
      forall k :: 0 <= k < |rows| ==> !SameMatchPlayer(rows[k], playerCol, p)
    ensures NearestIndex(rows, playerCol, p).Some? ==>
      var j := NearestIndex(rows, playerCol, p).value;
      && (forall k :: 0 <= k < |rows| && SameMatchPlayer(rows[k], playerCol, p) ==>
            FrameDistance(rows[j], p) <= FrameDistance(rows[k], p))
      && (forall k :: 0 <= k < j && SameMatchPlayer(rows[k], playerCol, p) ==>
            FrameDistance(rows[j], p) < FrameDistance(rows[k], p))
  {
    if |rows| > 0 {
      var last := |rows| - 1;
      NearestIsFirstClosest(rows[..last], playerCol, p);
      assert forall k :: 0 <= k < last ==> rows[..last][k] == rows[k];
    }
  }

  /** Linear scan for the nearest event, keeping the first of equally near ones. */
  method FindNearestEvent(rows: seq<map<string, Cell>>, playerCol: string, p: PeakSlice) returns (idx: Option<nat>)
    ensures idx == NearestIndex(rows, playerCol, p)
  {
    idx := None;
    var bestDiff := 0;
    for i := 0 to |rows|
      invariant idx == NearestIndex(rows[..i], playerCol, p)
      invariant idx.Some? ==> idx.value < i && bestDiff == FrameDistance(rows[idx.value], p)
    {
      assert rows[..i + 1][..i] == rows[..i];
      var e := rows[i];
      if Keyed(e, playerCol) && e["match_id"].i == p.matchId && e[playerCol].i == p.playerId {
        var diff := Abs(e["frame_start"].i - p.framePeakStart);
        if idx.None? || diff < bestDiff {
          idx, bestDiff := Some(i), diff;
        }
      }
    }
    assert rows[..|rows|] == rows;
  }

  /** The nearest event, rejected when a tolerance is set and it is farther than that. */
  function MatchOf(rows: seq<map<string, Cell>>, playerCol: string, p: PeakSlice, tolerance: Option<int>): (r: Option<nat>)
    ensures r.Some? ==> r.value < |rows| && SameMatchPlayer(rows[r.value], playerCol, p)
  {
    var idx := NearestIndex(rows, playerCol, p);
    if idx.None? then None
    else if tolerance.Some? && FrameDistance(rows[idx.value], p) > tolerance.value then None
    else idx
  }

  // ---------------------------------------------------------------------------
  // Merged rows

  /** A peak row and the event columns attached to it. */
  datatype MergedRow = MergedRow(peak: PeakSlice, event: map<string, Cell>)

  /** The event fields an unmatched peak row gets, all missing. */
  const NullEventFields: map<string, Cell> := map[
    "frame_start" := Null, "event_id" := Null, "event_type" := Null,
    "event_subtype" := Null, "time_start" := Null, "time_end" := Null]

  function PeakColumnName(w: int): (name: string)
    ensures |name| > 0 && name[0] == 'P'
  {
    "Peak m/min " + IntToDecimal(w) + "s"
  }

  /** The keys of a peak row once frame and time are renamed; events never overwrite them. */
  function PeakRowKeys(w: int): set<string>
  {
    {"match_id", "player_id", "team_name", PeakColumnName(w), "frame_peak_start", "time_peak_start"}
  }

  /** Event columns copied onto a matched row: all but the renamed player column and the peak row's keys. */
  function EventFields(e: map<string, Cell>, w: int, playerCol: string): map<string, Cell>
  {
    map c | c in e && c != playerCol && c !in PeakRowKeys(w) :: e[c]
  }

  /** The merged row of one peak row: the peak columns, then the matched event's other
      columns, or the six event fields missing. */
  function MergeOne(p: PeakSlice, rows: seq<map<string, Cell>>, playerCol: string, w: int, tolerance: Option<int>): (m: MergedRow)
    ensures m.peak == p
    ensures MatchOf(rows, playerCol, p, tolerance).None? ==> m.event == NullEventFields
    ensures MatchOf(rows, playerCol, p, tolerance).Some? ==>
      forall c :: c in m.event <==> c in rows[MatchOf(rows, playerCol, p, tolerance).value] && c != playerCol && c !in PeakRowKeys(w)
    ensures MatchOf(rows, playerCol, p, tolerance).Some? ==>
      forall c :: c in m.event ==> m.event[c] == rows[MatchOf(rows, playerCol, p, tolerance).value][c]
  {
    match MatchOf(rows, playerCol, p, tolerance)
    case None => MergedRow(p, NullEventFields)
    case Some(j) => MergedRow(p, EventFields(rows[j], w, playerCol))
  }

  function MergeAll(slices: seq<PeakSlice>, rows: seq<map<string, Cell>>, playerCol: string, w: int, tolerance: Option<int>): (merged: seq<MergedRow>)
    ensures |merged| == |slices|
  {
    seq(|slices|, i requires 0 <= i < |slices| => MergeOne(slices[i], rows, playerCol, w, tolerance))
  }

  // ---------------------------------------------------------------------------
  // Team event summary

  /** One row of the team event summary. */
  datatype SummaryEntry = SummaryEntry(
    team: string, eventType: Cell, typeCount: nat, typePercent: real,
    subtype: Cell, subtypeCount: nat)

  /** The category a missing sub-type is counted under. */
  const NoSubtype: Cell := TextCell("No Sub-Type")

  /** Team, event type and sub-type of one matched row. */
  datatype Tag = Tag(team: string, eventType: Cell, subtype: Cell)

  /** A cell of the merged table; absent from a row's fields means missing. */
  function EventCell(r: MergedRow, col: string): Cell
  {
    if col in r.event then r.event[col] else Null
  }

  predicate HasEventColumn(merged: seq<MergedRow>, col: string)
  {
    exists r :: r in merged && col in r.event
  }

  /** Matched rows only (event type present), missing sub-types relabelled. */
  function Tags(merged: seq<MergedRow>): (tags: seq<Tag>)
    ensures forall t :: t in tags ==> t.eventType != Null && t.subtype != Null
  {
    if |merged| == 0 then []
    else
      var init := Tags(merged[..|merged| - 1]);
      var r := merged[|merged| - 1];
      var ty := EventCell(r, "event_type");
      var sub := EventCell(r, "event_subtype");
      if ty == Null then init
      else init + [Tag(r.peak.teamName, ty, if sub == Null then NoSubtype else sub)]
  }

  function CountTeam(tags: seq<Tag>, team: string): nat
  {
    if |tags| == 0 then 0
    else CountTeam(tags[..|tags| - 1], team) + (if tags[|tags| - 1].team == team then 1 else 0)
  }

  function CountType(tags: seq<Tag>, team: string, ty: Cell): nat
  {
    if |tags| == 0 then 0
    else
      var t := tags[|tags| - 1];
      CountType(tags[..|tags| - 1], team, ty) + (if t.team == team && t.eventType == ty then 1 else 0)
  }

  function CountSubtype(tags: seq<Tag>, team: string, ty: Cell, sub: Cell): nat
  {
    if |tags| == 0 then 0
    else
      var t := tags[|tags| - 1];
      CountSubtype(tags[..|tags| - 1], team, ty, sub) + (if t.team == team && t.eventType == ty && t.subtype == sub then 1 else 0)
  }

  /** Counting a narrower category never gives more. */
  lemma {:induction false} CountsNest(tags: seq<Tag>, team: string, ty: Cell, sub: Cell)
    ensures CountSubtype(tags, team, ty, sub) <= CountType(tags, team, ty) <= CountTeam(tags, team)
  {
    if |tags| > 0 {
      CountsNest(tags[..|tags| - 1], team, ty, sub);
    }
  }

  /** A tag that occurs is counted at least once. */
  lemma {:induction false} CountsPositive(tags: seq<Tag>, t: Tag)
    requires t in tags
    ensures CountSubtype(tags, t.team, t.eventType, t.subtype) >= 1
  {
    var last := tags[|tags| - 1];
    if last != t {
      assert t in tags[..|tags| - 1];
      CountsPositive(tags[..|tags| - 1], t);
    }
  }

  /** The summary row for one (team, type, sub-type) combination. */
  function EntryFor(tags: seq<Tag>, t: Tag): (e: SummaryEntry)
    requires t in tags
    ensures e.team == t.team && e.eventType == t.eventType && e.subtype == t.subtype
    ensures e.typeCount == CountType(tags, t.team, t.eventType)
    ensures e.subtypeCount == CountSubtype(tags, t.team, t.eventType, t.subtype)
    ensures 1 <= e.subtypeCount <= e.typeCount <= CountTeam(tags, t.team)
    ensures e.typePercent == e.typeCount as real / CountTeam(tags, t.team) as real * 100.0
    ensures 0.0 < e.typePercent <= 100.0
  {
    CountsPositive(tags, t);
    CountsNest(tags, t.team, t.eventType, t.subtype);
    var typeCount := CountType(tags, t.team, t.eventType);
    var teamCount := CountTeam(tags, t.team);
    PercentBounds(typeCount, teamCount);
    SummaryEntry(t.team, t.eventType, typeCount, typeCount as real / teamCount as real * 100.0,
      t.subtype, CountSubtype(tags, t.team, t.eventType, t.subtype))
  }

  lemma PercentBounds(part: nat, whole: nat)
    requires 1 <= part <= whole
    ensures 0.0 < part as real / whole as real * 100.0 <= 100.0
  {
    assert part as real / whole as real <= 1.0;
  }

  /** The by-team summary: empty when nothing was merged, an error when the type or
      sub-type column does not exist, else one entry per (team, type, sub-type). */
  function TeamEventSummary(merged: seq<MergedRow>): (r: Result<set<SummaryEntry>, SchemaError>)
    ensures r.Err? <==> |merged| > 0 && (!HasEventColumn(merged, "event_type") || !HasEventColumn(merged, "event_subtype"))
    ensures r.Ok? ==> forall t :: t in Tags(merged) ==> EntryFor(Tags(merged), t) in r.value
    ensures r.Ok? ==> forall e :: e in r.value ==> exists t :: t in Tags(merged) && e == EntryFor(Tags(merged), t)
  {
    if |merged| == 0 then Ok({})
    else if !HasEventColumn(merged, "event_type") then Err(MissingSummaryColumn("event_type"))
    else if !HasEventColumn(merged, "event_subtype") then Err(MissingSummaryColumn("event_subtype"))
    else
      var tags := Tags(merged);
      Ok(set t | t in tags :: EntryFor(tags, t))
  }

  // ---------------------------------------------------------------------------
  // The operation

  /** Attaches the nearest acceptable event to one peak row, or missing event fields. */
  method MergePeakRow(p: PeakSlice, rows: seq<map<string, Cell>>, playerCol: string, w: int, tolerance: Option<int>)
    returns (row: MergedRow)
    ensures row == MergeOne(p, rows, playerCol, w, tolerance)
  {
    var idx := FindNearestEvent(rows, playerCol, p);
    if idx.None? {
      row := MergedRow(p, NullEventFields);
    } else if tolerance.Some? && FrameDistance(rows[idx.value], p) > tolerance.value {
      row := MergedRow(p, NullEventFields);
    } else {
      row := MergedRow(p, EventFields(rows[idx.value], w, playerCol));
    }
  }

  /** One merged row per peak row, in order. */
  method MergeRows(slices: seq<PeakSlice>, rows: seq<map<string, Cell>>, playerCol: string, w: int, tolerance: Option<int>)
    returns (merged: seq<MergedRow>)
    ensures merged == MergeAll(slices, rows, playerCol, w, tolerance)
  {
    merged := [];
    for i := 0 to |slices|
      invariant |merged| == i
      invariant forall k :: 0 <= k < i ==> merged[k] == MergeOne(slices[k], rows, playerCol, w, tolerance)
    {
      var row := MergePeakRow(slices[i], rows, playerCol, w, tolerance);
      merged := merged + [row];
    }
  }

  datatype MergeOutput = MergeOutput(merged: seq<MergedRow>, summary: Option<set<SummaryEntry>>)

  /** The whole correlator. Without a schema error, the merged table has one row per
      peak row with a start frame, in order, each built by MergeOne. */
  method MergeWcsPeaksWithEvents(
    peaks: seq<PeakRow>, events: EventTable, w: int, playerCol: string,
    tolerance: Option<int>, returnSummary: bool)
    returns (out: Result<MergeOutput, SchemaError>)
    requires WellFormedEvents(events, playerCol)
    ensures CheckSchema(peaks, events, w, playerCol).Some? ==>
      out == Err(CheckSchema(peaks, events, w, playerCol).value)
    ensures CheckSchema(peaks, events, w, playerCol).None? ==>
      var slices := PeakSlices(peaks, w);
      match PrepareEvents(Candidates(events.rows, playerCol, PeakPlayers(slices)), playerCol)
      case Err(e) => out == Err(e)
      case Ok(rows) =>
        var merged := MergeAll(slices, rows, playerCol, w, tolerance);
        if !returnSummary then out == Ok(MergeOutput(merged, None))
        else match TeamEventSummary(merged)
          case Ok(summary) => out == Ok(MergeOutput(merged, Some(summary)))
          case Err(e) => out == Err(e)
  {
    var schema := CheckSchema(peaks, events, w, playerCol);
    if schema.Some? {
      return Err(schema.value);
    }
    var slices := PeakSlices(peaks, w);
    var candidates := Candidates(events.rows, playerCol, PeakPlayers(slices));
    var cast := PrepareEvents(candidates, playerCol);
    if cast.Err? {
      return Err(cast.error);
    }
    var merged := MergeRows(slices, cast.value, playerCol, w, tolerance);
    if !returnSummary {
      return Ok(MergeOutput(merged, None));
    }
    var summary := TeamEventSummary(merged);
    if summary.Err? {
      return Err(summary.error);
    }
    return Ok(MergeOutput(merged, Some(summary.value)));
  }
}

/** What the correlator promises: the schema gate, the nearest-event choice under a
    tolerance, left-join behaviour and the counting in the team event summary. */
module CorrelatorProperties {
  import opened Common
  import opened Kinematics
  import opened Correlator

  /** Merging works slice by slice, in order. */
  lemma MergeAllOfConcat(x: seq<PeakSlice>, y: seq<PeakSlice>, rows: seq<map<string, Cell>>, playerCol: string, w: int, tolerance: Option<int>)
    ensures MergeAll(x + y, rows, playerCol, w, tolerance) == MergeAll(x, rows, playerCol, w, tolerance) + MergeAll(y, rows, playerCol, w, tolerance)
  {
    var m := MergeAll(x + y, rows, playerCol, w, tolerance);
    var mx := MergeAll(x, rows, playerCol, w, tolerance);
    var my := MergeAll(y, rows, playerCol, w, tolerance);
    assert forall i :: 0 <= i < |x| ==> (x + y)[i] == x[i];
    assert forall i :: 0 <= i < |y| ==> (x + y)[|x| + i] == y[i];
    assert m == mx + my;
  }

  /** Every peak row with a start frame for the window yields exactly one merged row, at
      its own position among the rows before and after it; a row without one yields none. */
  lemma OneMergedRowPerPeakRow(a: seq<PeakRow>, r: PeakRow, b: seq<PeakRow>,
                               rows: seq<map<string, Cell>>, playerCol: string, w: int, tolerance: Option<int>)
    ensures MergeAll(PeakSlices(a + [r] + b, w), rows, playerCol, w, tolerance)
         == MergeAll(PeakSlices(a, w), rows, playerCol, w, tolerance)
          + (if w in r.peaks then [MergeOne(SliceOf(r, w), rows, playerCol, w, tolerance)] else [])
          + MergeAll(PeakSlices(b, w), rows, playerCol, w, tolerance)
  {
    var sa, sr, sb := PeakSlices(a, w), PeakSlices([r], w), PeakSlices(b, w);
    assert PeakSlices(a + [r] + b, w) == sa + sr + sb by {
      PeakSlicesOfConcat(a + [r], b, w);
      PeakSlicesOfConcat(a, [r], w);
    }
    MergeAllOfConcat(sa + sr, sb, rows, playerCol, w, tolerance);
    MergeAllOfConcat(sa, sr, rows, playerCol, w, tolerance);
    PeakSlicesOfOne(r, w);
    if w in r.peaks {
      assert MergeAll(sr, rows, playerCol, w, tolerance) == [MergeOne(SliceOf(r, w), rows, playerCol, w, tolerance)];
    } else {
      assert MergeAll(sr, rows, playerCol, w, tolerance) == [];
    }
  }

  /** The schema checks pass exactly when the peak table has the window's columns and
      the event table has the three merge keys. */
  lemma SchemaAcceptedExactly(peaks: seq<PeakRow>, events: EventTable, w: int, playerCol: string)
    ensures CheckSchema(peaks, events, w, playerCol).None? <==>
      && (exists r :: r in peaks && w in r.peaks)
      && "match_id" in events.columns && playerCol in events.columns && "frame_start" in events.columns
  {
    var missingPeak := MissingPeakColumnsOf(RequiredPeakColumns, peaks, w);
    var missingEvent := MissingEventColumnsOf(["match_id", playerCol, "frame_start"], events.columns);
    if exists r :: r in peaks && w in r.peaks {
      assert |peaks| > 0;
      assert forall c :: c in RequiredPeakColumns ==> HasPeakColumn(peaks, w, c);
    } else {
      assert PeakValueColumn in missingPeak;
    }
    if "match_id" !in events.columns {
      assert "match_id" in missingEvent;
    }
    if "frame_start" !in events.columns {
      assert "frame_start" in missingEvent;
    }
  }

  /** The event a peak row is matched to, by content. */
  function ChosenEvent(rows: seq<map<string, Cell>>, playerCol: string, p: PeakSlice): Option<map<string, Cell>>
  {
    match NearestIndex(rows, playerCol, p)
    case None => None
    case Some(j) => Some(rows[j])
  }

  /** A match exists exactly when the player has an event in the match within the
      tolerance; the match is the nearest such event, the first of equally near ones. */
  lemma MatchIsNearestWithinTolerance(rows: seq<map<string, Cell>>, playerCol: string, p: PeakSlice, tolerance: Option<int>)
    ensures MatchOf(rows, playerCol, p, tolerance).None? <==>
      || (forall k :: 0 <= k < |rows| ==> !SameMatchPlayer(rows[k], playerCol, p))
      || (tolerance.Some? && forall k :: 0 <= k < |rows| && SameMatchPlayer(rows[k], playerCol, p) ==>
            FrameDistance(rows[k], p) > tolerance.value)
    ensures MatchOf(rows, playerCol, p, tolerance).Some? ==>
      var j := MatchOf(rows, playerCol, p, tolerance).value;
      && (tolerance.Some? ==> FrameDistance(rows[j], p) <= tolerance.value)
      && (forall k :: 0 <= k < |rows| && SameMatchPlayer(rows[k], playerCol, p) ==>
            FrameDistance(rows[j], p) <= FrameDistance(rows[k], p))
      && (forall k :: 0 <= k < j && SameMatchPlayer(rows[k], playerCol, p) ==>
            FrameDistance(rows[j], p) < FrameDistance(rows[k], p))
  {
    NearestIsFirstClosest(rows, playerCol, p);
  }

  /** With tolerance 0 a peak row is matched exactly when the player has an event in
      the match starting on the peak window's first frame, and then carries that frame. */
  lemma ZeroToleranceMatchesExactFrame(p: PeakSlice, rows: seq<map<string, Cell>>, playerCol: string, w: int)
    requires playerCol != "frame_start"
    ensures MatchOf(rows, playerCol, p, Some(0)).Some? <==>
      exists k :: 0 <= k < |rows| && SameMatchPlayer(rows[k], playerCol, p) && rows[k]["frame_start"].i == p.framePeakStart
    ensures MatchOf(rows, playerCol, p, Some(0)).Some? ==>
      var r := MergeOne(p, rows, playerCol, w, Some(0));
      "frame_start" in r.event && r.event["frame_start"] == IntCell(p.framePeakStart)
  {
    MatchIsNearestWithinTolerance(rows, playerCol, p, Some(0));
    var m := MatchOf(rows, playerCol, p, Some(0));
    if m.Some? {
      var e := rows[m.value];
      assert "frame_start" !in PeakRowKeys(w) by {
        assert PeakColumnName(w)[0] == 'P';
      }
      assert EventFields(e, w, playerCol)["frame_start"] == e["frame_start"];
    } else {
      forall k | 0 <= k < |rows| && SameMatchPlayer(rows[k], playerCol, p)
        ensures rows[k]["frame_start"].i != p.framePeakStart
      {
        assert FrameDistance(rows[k], p) > 0;
      }
    }
  }

  /** A peak row whose player has no event in the match keeps all event fields missing,
      and so is not counted in the team event summary. */
  lemma UnmatchedPeakGetsMissingEventFields(p: PeakSlice, rows: seq<map<string, Cell>>, playerCol: string, w: int, tolerance: Option<int>)
    requires forall k :: 0 <= k < |rows| ==> !SameMatchPlayer(rows[k], playerCol, p)
    ensures MergeOne(p, rows, playerCol, w, tolerance) == MergedRow(p, NullEventFields)
    ensures EventCell(MergeOne(p, rows, playerCol, w, tolerance), "event_type") == Null
  {
    NearestIsFirstClosest(rows, playerCol, p);
  }

  /** Event columns never overwrite the peak row's own columns, and the peak values are kept. */
  lemma EventFieldsAvoidPeakColumns(p: PeakSlice, rows: seq<map<string, Cell>>, playerCol: string, w: int, tolerance: Option<int>)
    ensures MergeOne(p, rows, playerCol, w, tolerance).peak == p
    ensures MergeOne(p, rows, playerCol, w, tolerance).event.Keys !! PeakRowKeys(w)
    ensures playerCol !in MergeOne(p, rows, playerCol, w, tolerance).event || playerCol in NullEventFields
  {
    var name := PeakColumnName(w);
    assert name[0] == 'P';
    assert name !in NullEventFields;
  }

  /** Dropping the events of players without a peak row changes no choice. */
  lemma {:induction false} CandidatesKeepNearest(rows: seq<map<string, Cell>>, playerCol: string, players: set<int>, p: PeakSlice)
    requires p.playerId in players
    ensures ChosenEvent(Candidates(rows, playerCol, players), playerCol, p) == ChosenEvent(rows, playerCol, p)
  {
    if |rows| > 0 {
      var init := rows[..|rows| - 1];
      var last := rows[|rows| - 1];
      CandidatesKeepNearest(init, playerCol, players, p);
      var c := Candidates(rows, playerCol, players);
      var c0 := Candidates(init, playerCol, players);
      if Kept(last, playerCol, players) {
        assert c == c0 + [last];
        assert c[..|c| - 1] == c0;
        var b0 := NearestIndex(c0, playerCol, p);
        var b := NearestIndex(init, playerCol, p);
        assert b0.Some? ==> c[b0.value] == c0[b0.value];
        assert b.Some? ==> rows[b.value] == init[b.value];
      } else {
        assert c == c0;
        assert !SameMatchPlayer(last, playerCol, p);
        var b := NearestIndex(init, playerCol, p);
        assert b.Some? ==> rows[b.value] == init[b.value];
      }
    }
  }

  /** Merging against the candidate events gives the same table as against all events. */
  lemma RestrictionKeepsMerge(slices: seq<PeakSlice>, rows: seq<map<string, Cell>>, playerCol: string, w: int, tolerance: Option<int>)
    ensures MergeAll(slices, Candidates(rows, playerCol, PeakPlayers(slices)), playerCol, w, tolerance)
         == MergeAll(slices, rows, playerCol, w, tolerance)
  {
    var c := Candidates(rows, playerCol, PeakPlayers(slices));
    forall i | 0 <= i < |slices|
      ensures MergeOne(slices[i], c, playerCol, w, tolerance) == MergeOne(slices[i], rows, playerCol, w, tolerance)
    {
      var p := slices[i];
      CandidatesKeepNearest(rows, playerCol, PeakPlayers(slices), p);
      var a := NearestIndex(c, playerCol, p);
      var b := NearestIndex(rows, playerCol, p);
      assert a.Some? <==> b.Some?;
      if a.Some? {
        assert c[a.value] == rows[b.value];
      }
    }
  }

  /** One merged row gives one tag when it has an event type, with a missing sub-type
      counted as "No Sub-Type", and no tag otherwise. */
  lemma TagsOfOne(r: MergedRow)
    ensures var ty := EventCell(r, "event_type");
      var sub := EventCell(r, "event_subtype");
      Tags([r]) == if ty == Null then [] else [Tag(r.peak.teamName, ty, if sub == Null then NoSubtype else sub)]
  {
    assert [r][..0] == [];
  }

  /** Only matched rows are tagged, one tag per matched row. */
  lemma {:induction false} TagsOfConcat(a: seq<MergedRow>, b: seq<MergedRow>)
    ensures Tags(a + b) == Tags(a) + Tags(b)
  {
    if |b| > 0 {
      var b0 := b[..|b| - 1];
      TagsOfConcat(a, b0);
      assert (a + b)[..|a + b| - 1] == a + b0;
      assert Tags([] + b) == Tags(b) by { assert [] + b == b; }
      assert Tags(b[..|b| - 1]) == Tags(b0);
    } else {
      assert a + b == a;
    }
  }

  /** Appending rows without an event leaves every count of the summary unchanged. */
  lemma UnmatchedRowsAreNotCounted(a: seq<MergedRow>, b: seq<MergedRow>)
    requires forall k :: 0 <= k < |b| ==> EventCell(b[k], "event_type") == Null
    ensures Tags(a + b) == Tags(a)
  {
    TagsOfConcat(a, b);
    UnmatchedHaveNoTags(b);
  }

  lemma {:induction false} UnmatchedHaveNoTags(b: seq<MergedRow>)
    requires forall k :: 0 <= k < |b| ==> EventCell(b[k], "event_type") == Null
    ensures Tags(b) == []
  {
    if |b| > 0 {
      UnmatchedHaveNoTags(b[..|b| - 1]);
    }
  }
}
