// `play_by_play` of the older scraper (src/nba/play_by_play.py): the same
// cleaning, then a quarter counter driven by the "Start of ... quarter"
// events instead of the game clock.
module PlayByPlayLegacy {
  import opened Text
  import opened Wrappers
  import opened Plays
  import opened Series

  /** One row of the returned frame, in column order: time, quarter, team, score, event, points. */
  datatype Row = Row(
    time: string,
    quarter: nat,
    team: string,
    score: string,
    event: string,
    points: nat)

  predicate NoNewline(s: string)
  {
    forall i :: 0 <= i < |s| ==> s[i] != '\n'
  }

  /** "Start of", then any characters but a newline, then "quarter", and nothing else. */
  predicate MarkerLine(e: string)
  {
    |e| >= 15 && StartsWith(e, "Start of") && EndsWith(e, "quarter") && NoNewline(e[8..|e| - 7])
  }

  /**
   * `str.match('^Start of.*quarter$')`: `.` stops at a newline, and `$` also
   * matches just before a final newline.
   */
  predicate StartsQuarter(e: string)
  {
    MarkerLine(e) || (|e| > 0 && e[|e| - 1] == '\n' && MarkerLine(e[..|e| - 1]))
  }

  lemma QuarterEvents()
    ensures StartsQuarter("Start of 1st quarter")
    ensures StartsQuarter("Start of 4th quarter")
  {
    MarkerOf(" 1st ");
    assert "Start of" + " 1st " + "quarter" == "Start of 1st quarter";
    MarkerOf(" 4th ");
    assert "Start of" + " 4th " + "quarter" == "Start of 4th quarter";
  }

  /** "Start of", a middle with no newline, and "quarter" make a marker line. */
  lemma MarkerOf(mid: string)
    requires NoNewline(mid)
    ensures MarkerLine("Start of" + mid + "quarter")
  {
    var e := "Start of" + mid + "quarter";
    assert e[..8] == "Start of";
    assert e[|e| - 7..] == "quarter";
    assert e[8..|e| - 7] == mid;
  }

  /** Overtime openings do not end in "quarter", so they do not count. */
  lemma OvertimeEvents()
    ensures !StartsQuarter("Start of 1st overtime")
    ensures !StartsQuarter("Start of 2nd overtime")
  {
    assert !EndsWith("Start of 1st overtime", "quarter");
    assert !EndsWith("Start of 2nd overtime", "quarter");
  }

  /** The `start_quarter` column, as 0 or 1. */
  function Marks(plays: seq<Play>): (r: seq<nat>)
    ensures |r| == |plays|
    ensures forall k :: 0 <= k < |r| ==> r[k] <= 1 && (r[k] == 1 <==> StartsQuarter(plays[k].event))
  {
    seq(|plays|, k requires 0 <= k < |plays| => if StartsQuarter(plays[k].event) then 1 else 0)
  }

  /** The number of plays that start a quarter. */
  function MarkCount(plays: seq<Play>): nat
  {
    if plays == [] then 0
    else MarkCount(plays[..|plays| - 1]) + (if StartsQuarter(plays[|plays| - 1].event) then 1 else 0)
  }

  /** Row k against play k: the play's cells, and the quarter one up on the previous row's when the play starts a quarter (1 before). */
  predicate RowOf(plays: seq<Play>, out: seq<Row>, k: int)
    requires 0 <= k < |plays| == |out|
  {
    var p := plays[k];
    out[k] == Row(p.time, out[k].quarter, p.city, p.score, p.event, p.points) &&
    out[k].quarter == (if k == 0 then 1 else out[k - 1].quarter) + (if StartsQuarter(p.event) then 1 else 0)
  }

  predicate Game(plays: seq<Play>, out: seq<Row>)
  {
    |out| == |plays| && forall k :: 0 <= k < |out| ==> RowOf(plays, out, k)
  }

  /**
   * Neither event column holds text, so their concatenation is numeric and
   * `event.str.match` (line 70) raises AttributeError.
   */
  predicate EventsNumeric(rows: seq<SourceRow>)
  {
    forall i :: 0 <= i < |rows| ==> NoText(rows[i].awayEvent) && NoText(rows[i].homeEvent)
  }

  /**
   * The play-by-play frame of a game: the shared cleaning (lines 35-67),
   * then the quarter counter (70-74) with the helper columns dropped (75).
   * Fails exactly where the cleaning raises or the event column holds no text.
   */
  method PlayByPlay(rows: seq<SourceRow>, away: string, home: string) returns (r: Result<seq<Row>, string>)
    ensures r.Failure? <==> Raises(rows) || EventsNumeric(rows)
    ensures r.Success? ==> Clean(rows, away, home).Success? && Game(Clean(rows, away, home).value, r.value)
  {
    var cleaned := Clean(rows, away, home);
    CleanRaises(rows, away, home);
    if cleaned.Failure? {
      return Failure(cleaned.error);
    }
    if EventsNumeric(rows) {
      return Failure(NoStrAccessor);
    }
    var df := cleaned.value;
    var startQuarter := Marks(df);
    var counted := CumSum(startQuarter);
    var out := seq(|df|, k requires 0 <= k < |df| => Row(df[k].time, 1 + counted[k], df[k].city, df[k].score, df[k].event, df[k].points));
    forall k | 0 <= k < |df| ensures RowOf(df, out, k) {
      if k > 0 {
        assert out[k - 1].quarter == 1 + counted[k - 1];
      }
    }
    return Success(out);
  }

  /** The quarter never goes down. */
  lemma {:induction false} QuarterNeverDecreases(plays: seq<Play>, out: seq<Row>, j: int, k: int)
    requires Game(plays, out)
    requires 0 <= j <= k < |out|
    ensures out[j].quarter <= out[k].quarter
    decreases k - j
  {
    if j < k {
      assert RowOf(plays, out, k);
      QuarterNeverDecreases(plays, out, j, k - 1);
    }
  }

  /** The quarter of row k is 1 plus the number of plays up to k that start a quarter. */
  lemma {:induction false} QuarterCounts(plays: seq<Play>, out: seq<Row>, k: int)
    requires Game(plays, out)
    requires 0 <= k < |out|
    ensures out[k].quarter == 1 + MarkCount(plays[..k + 1])
  {
    assert RowOf(plays, out, k);
    assert plays[..k + 1][..k] == plays[..k];
    if k == 0 {
      assert plays[..0] == [];
    } else {
      QuarterCounts(plays, out, k - 1);
    }
  }

  /** A play that does not start a quarter, such as an overtime opening, keeps the previous row's quarter. */
  lemma QuarterKept(plays: seq<Play>, out: seq<Row>, k: int)
    requires Game(plays, out)
    requires 0 < k < |out| && !StartsQuarter(plays[k].event)
    ensures out[k].quarter == out[k - 1].quarter
  {
    assert RowOf(plays, out, k);
  }
}
