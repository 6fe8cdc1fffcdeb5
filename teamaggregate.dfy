/** The team aggregator of summarize_team_wcs: for every team (in ascending order) and
    every Peak m/min window that any row reports, the mean, minimum and maximum of the
    team's peaks for that window, or "not available" when no player of the team has one. */
module TeamAggregate {
  import opened Common
  import opened RealSums
  import opened TextOrder
  import opened Kinematics

  /** One cell of the team summary: "mean (min – max)" or "N/A". */
  datatype Stat = NotAvailable | Stats(mean: real, min: real, max: real)

  /** One row of the team summary, a cell per window length in seconds. */
  datatype TeamSummary = TeamSummary(team: string, cells: map<int, Stat>)

  /** Grouping an empty peak table fails: it has no team_name column. */
  datatype AggregateError = MissingTeamColumn

  /** The Peak m/min columns of the table: the windows some row reports. */
  function PeakWindows(rows: seq<PeakRow>): set<int>
  {
    if |rows| == 0 then {} else rows[0].peaks.Keys + PeakWindows(rows[1..])
  }

  /** The columns are exactly the windows some row reports. */
  lemma {:induction false} PeakWindowsAreReported(rows: seq<PeakRow>)
    ensures forall w :: w in PeakWindows(rows) <==> exists r :: r in rows && w in r.peaks
  {
    if |rows| > 0 {
      PeakWindowsAreReported(rows[1..]);
      assert forall r :: r in rows <==> r == rows[0] || r in rows[1..];
    }
  }

  function TeamNames(rows: seq<PeakRow>): (names: seq<string>)
    ensures |names| == |rows|
    ensures forall i :: 0 <= i < |rows| ==> names[i] == rows[i].teamName
  {
    seq(|rows|, i requires 0 <= i < |rows| => rows[i].teamName)
  }

  /** The groups of groupby("team_name"), in ascending order of the name. */
  function Teams(rows: seq<PeakRow>): (teams: seq<string>)
    ensures StrictlyAscending(teams)
    ensures forall t :: t in teams <==> t in TeamNames(rows)
  {
    SortedDistinct(TeamNames(rows))
  }

  /** The non-missing values of one window column within one team, in table order. */
  function ColumnValues(rows: seq<PeakRow>, team: string, w: int): seq<real>
  {
    if |rows| == 0 then []
    else
      var rest := ColumnValues(rows[1..], team, w);
      var r := rows[0];
      if r.teamName == team && w in r.peaks then [r.peaks[w].value] + rest else rest
  }

  /** The column's values are exactly the team's peaks for the window. */
  lemma {:induction false} ColumnValuesAreTeamPeaks(rows: seq<PeakRow>, team: string, w: int)
    ensures forall v :: v in ColumnValues(rows, team, w) <==>
      exists r :: r in rows && r.teamName == team && w in r.peaks && r.peaks[w].value == v
  {
    if |rows| > 0 {
      ColumnValuesAreTeamPeaks(rows[1..], team, w);
      assert forall r :: r in rows <==> r == rows[0] || r in rows[1..];
    }
  }

  /** Collecting values works row by row and keeps the table order, so equal peaks of
      two players both count. */
  lemma {:induction false} ColumnValuesOfConcat(a: seq<PeakRow>, b: seq<PeakRow>, team: string, w: int)
    ensures ColumnValues(a + b, team, w) == ColumnValues(a, team, w) + ColumnValues(b, team, w)
  {
    if |a| > 0 {
      assert (a + b)[1..] == a[1..] + b;
      ColumnValuesOfConcat(a[1..], b, team, w);
    } else {
      assert a + b == b;
    }
  }

  /** One row contributes its peak for the window when it belongs to the team and has one. */
  lemma ColumnValuesOfOne(r: PeakRow, team: string, w: int)
    ensures ColumnValues([r], team, w) == if r.teamName == team && w in r.peaks then [r.peaks[w].value] else []
  {
    assert [r][1..] == [];
  }

  /** Mean, minimum and maximum of the values, or not available when there are none. */
  function ColumnStat(vals: seq<real>): (st: Stat)
    ensures st == NotAvailable <==> |vals| == 0
    ensures st.Stats? ==> st.mean == Sum(vals) / |vals| as real
    ensures st.Stats? ==> st.min <= st.mean <= st.max
    ensures st.Stats? ==> forall k :: 0 <= k < |vals| ==> st.min <= vals[k] <= st.max
    ensures st.Stats? ==> st.min in vals && st.max in vals
  {
    if |vals| == 0 then NotAvailable
    else
      MeanBetweenMinAndMax(vals);
      Stats(Mean(vals), Min(vals), Max(vals))
  }

  /** The summary row of one team. */
  function TeamRow(rows: seq<PeakRow>, team: string): (row: TeamSummary)
    ensures row.team == team && row.cells.Keys == PeakWindows(rows)
    ensures forall w :: w in row.cells ==> row.cells[w] == ColumnStat(ColumnValues(rows, team, w))
  {
    TeamSummary(team, map w | w in PeakWindows(rows) :: ColumnStat(ColumnValues(rows, team, w)))
  }

  function TeamRows(rows: seq<PeakRow>, teams: seq<string>): (out: seq<TeamSummary>)
    ensures |out| == |teams|
    ensures forall i :: 0 <= i < |teams| ==> out[i] == TeamRow(rows, teams[i])
    ensures forall i :: 0 <= i < |teams| ==> out[i].team == teams[i]
  {
    seq(|teams|, i requires 0 <= i < |teams| => TeamRow(rows, teams[i]))
  }

  /** The team column of a summary table. */
  function TeamColumn(out: seq<TeamSummary>): (teams: seq<string>)
    ensures |teams| == |out|
    ensures forall k :: 0 <= k < |out| ==> teams[k] == out[k].team
  {
    seq(|out|, k requires 0 <= k < |out| => out[k].team)
  }

  /** The whole summary: one row per team, in ascending order of the team name. */
  function TeamSummaries(rows: seq<PeakRow>): (r: Result<seq<TeamSummary>, AggregateError>)
    ensures r.Err? <==> |rows| == 0
    ensures r.Ok? ==> |r.value| == |Teams(rows)| && forall i :: 0 <= i < |r.value| ==> r.value[i] == TeamRow(rows, Teams(rows)[i])
  {
    if |rows| == 0 then Err(MissingTeamColumn) else Ok(TeamRows(rows, Teams(rows)))
  }

  lemma CellsAreTeamRow(rows: seq<PeakRow>, team: string, cells: map<int, Stat>)
    requires cells.Keys == PeakWindows(rows)
    requires forall c :: c in cells ==> cells[c] == ColumnStat(ColumnValues(rows, team, c))
    ensures cells == TeamRow(rows, team).cells
  {
  }

  lemma SomeWindowLeft(todo: set<int>)
    requires todo != {}
    ensures exists w :: w in todo
  {
    if forall w :: w !in todo {
      assert false;
    }
  }

  /** Fills the cells of one team, one window column at a time. */
  method SummarizeTeam(rows: seq<PeakRow>, team: string) returns (row: TeamSummary)
    ensures row == TeamRow(rows, team)
  {
    var columns := PeakWindows(rows);
    var cells: map<int, Stat> := map[];
    var todo := columns;
    while todo != {}
      invariant todo <= columns
      invariant cells.Keys == columns - todo
      invariant forall c :: c in cells ==> cells[c] == ColumnStat(ColumnValues(rows, team, c))
      decreases |todo|
    {
      SomeWindowLeft(todo);
      var w :| w in todo;
      cells := cells[w := ColumnStat(ColumnValues(rows, team, w))];
      todo := todo - {w};
    }
    CellsAreTeamRow(rows, team, cells);
    row := TeamSummary(team, cells);
  }

  /** The summary table, team by team. */
  method SummarizeTeamWcs(rows: seq<PeakRow>) returns (res: Result<seq<TeamSummary>, AggregateError>)
    ensures res == TeamSummaries(rows)
  {
    if |rows| == 0 {
      return Err(MissingTeamColumn);
    }
    var teams := Teams(rows);
    var summary: seq<TeamSummary> := [];
    ghost var expected := TeamRows(rows, teams);
    for i := 0 to |teams|
      invariant |summary| == i
      invariant forall k :: 0 <= k < i ==> summary[k] == TeamRow(rows, teams[k])
    {
      var row := SummarizeTeam(rows, teams[i]);
      summary := summary + [row];
    }
    assert summary == expected;
    return Ok(summary);
  }
}

/** What the team summary promises about its rows and cells. */
module TeamAggregateProperties {
  import opened RealSums
  import opened TextOrder
  import opened Kinematics
  import opened TeamAggregate

  /** One row per team present in the table, each team once, in ascending order;
      an empty table is an error. */
  lemma OneRowPerTeamInOrder(rows: seq<PeakRow>)
    ensures TeamSummaries(rows).Err? <==> |rows| == 0
    ensures TeamSummaries(rows).Ok? ==>
      && StrictlyAscending(TeamColumn(TeamSummaries(rows).value))
      && forall t :: t in TeamColumn(TeamSummaries(rows).value) <==> t in TeamNames(rows)
  {
    if |rows| > 0 {
      var teams := Teams(rows);
      var out := TeamRows(rows, teams);
      assert TeamColumn(out) == teams;
    }
  }

  /** Every team row has a cell for exactly the windows some row reports. */
  lemma CellsCoverReportedWindows(rows: seq<PeakRow>, team: string, w: int)
    ensures w in TeamRow(rows, team).cells <==> exists r :: r in rows && w in r.peaks
  {
    PeakWindowsAreReported(rows);
  }

  /** A cell is "not available" exactly when no player of the team has a peak for the
      window; otherwise its minimum and maximum are peaks of the team's players that
      bound every other one, with the mean between them. */
  lemma CellSummarizesTheTeamsPeaks(rows: seq<PeakRow>, team: string, w: int)
    ensures var st := ColumnStat(ColumnValues(rows, team, w));
      && (st == NotAvailable <==> !exists r :: r in rows && r.teamName == team && w in r.peaks)
      && (st.Stats? ==>
        && st.mean == Sum(ColumnValues(rows, team, w)) / |ColumnValues(rows, team, w)| as real
        && st.min <= st.mean <= st.max
        && (forall r :: r in rows && r.teamName == team && w in r.peaks ==> st.min <= r.peaks[w].value <= st.max)
        && (exists r :: r in rows && r.teamName == team && w in r.peaks && r.peaks[w].value == st.min)
        && (exists r :: r in rows && r.teamName == team && w in r.peaks && r.peaks[w].value == st.max))
  {
    var vals := ColumnValues(rows, team, w);
    ColumnValuesAreTeamPeaks(rows, team, w);
    if |vals| > 0 {
      assert vals[0] in vals;
    }
    forall r | r in rows && r.teamName == team && w in r.peaks
      ensures exists k :: 0 <= k < |vals| && vals[k] == r.peaks[w].value
    {
      assert r.peaks[w].value in vals;
    }
  }
}
