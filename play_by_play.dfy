// `get_play_by_play` of the packaged scraper (sportquery/nba/play_by_play.py),
// from the cleaned plays on: the minute of each clock, the quarter counter,
// the end-of-game flag, the two halves of the score and the game id.
module PlayByPlay {
  import opened Wrappers
  import opened Text
  import opened Plays
  import opened Series

  /**
   * One row of the returned frame, its fields in the order of the returned
   * columns: game_id, city, is_home, quarter, start_quarter, end_game, time,
   * score_away, score_home, points, event.
   */
  datatype Row = Row(
    gameId: string,
    city: string,
    isHome: nat,
    quarter: nat,
    startQuarter: nat,
    endGame: nat,
    time: string,
    scoreAway: nat,
    scoreHome: nat,
    points: nat,
    event: string)

  /** A game clock's minutes are the digits before its colon. */
  lemma ClockMinutes(t: string)
    requires IsClock(t)
    ensures IsDigits(DigitPrefix(t))
    ensures Split(t, ':')[0] == DigitPrefix(t)
  {
    var i, j :| 0 < i < |t| && i + 1 < j < |t| - 1 &&
      IsDigits(t[..i]) && t[i] == ':' && IsDigits(t[i + 1..j]) && t[j] != '\n' && IsDigits(t[j + 1..]);
    DigitPrefixBefore(t, i);
    forall m | 0 <= m < i ensures t[m] != ':' {
      assert t[..i][m] == t[m];
    }
    SplitFirst(t, ':', i);
  }

  /** `int(time.split(':')[0])`: the minutes of a game clock. */
  function Minute(t: string): (r: nat)
    requires IsClock(t)
    ensures r == NatValue(DigitPrefix(t))
  {
    ClockMinutes(t);
    ParseInt(Split(t, ':')[0]).value
  }

  /** The `minute` column. */
  function Minutes(plays: seq<Play>): (r: seq<nat>)
    requires forall k :: 0 <= k < |plays| ==> IsClock(plays[k].time)
    ensures |r| == |plays| && forall k :: 0 <= k < |plays| ==> r[k] == Minute(plays[k].time)
  {
    seq(|plays|, k requires 0 <= k < |plays| => Minute(plays[k].time))
  }

  /** `minute.shift(1).fillna(0)`: the previous row's minute, 0 before the first row. */
  function Previous(minutes: seq<nat>, k: int): nat
    requires 0 <= k < |minutes|
  {
    if k == 0 then 0 else minutes[k - 1]
  }

  /** `(minute > minute.shift(1).fillna(0)).astype(int)`. */
  function StartQuarter(minutes: seq<nat>): (r: seq<nat>)
    ensures |r| == |minutes|
    ensures forall k :: 0 <= k < |r| ==> r[k] <= 1 && (r[k] == 1 <==> minutes[k] > Previous(minutes, k))
  {
    seq(|minutes|, k requires 0 <= k < |minutes| => if minutes[k] > Previous(minutes, k) then 1 else 0)
  }

  /**
   * `df.loc[df.index[-1], 'end_game'] = 1` as written: `df.index[-1]` is
   * the label of the last play, and `.loc` on that label marks every play
   * carrying it, that is both halves of the last source row when both are
   * kept.
   */
  function EndGameByLabel(plays: seq<Play>): (r: seq<nat>)
    requires |plays| > 0
    ensures |r| == |plays| && r[|r| - 1] == 1
    ensures forall k :: 0 <= k < |r| ==> r[k] <= 1 && (r[k] == 1 <==> plays[k].row == plays[|plays| - 1].row)
  {
    seq(|plays|, k requires 0 <= k < |plays| => if plays[k].row == plays[|plays| - 1].row then 1 else 0)
  }

  /** The end-of-game flag as the scraper means it: 1 on the last row only. */
  function EndGame(n: nat): (r: seq<nat>)
    requires n > 0
    ensures |r| == n && forall k :: 0 <= k < n ==> r[k] <= 1 && (r[k] == 1 <==> k == n - 1)
  {
    seq(n, k requires 0 <= k < n => if k == n - 1 then 1 else 0)
  }

  /**
   * The two flags differ only when the last two plays are the two halves of
   * one source row: otherwise no other play carries the last play's label.
   */
  lemma EndGameByLabelAgrees(plays: seq<Play>)
    requires OrderedPlays(plays) && |plays| > 0
    requires |plays| == 1 || plays[|plays| - 2].row != plays[|plays| - 1].row
    ensures EndGameByLabel(plays) == EndGame(|plays|)
  {
    var n := |plays|;
    var last := plays[n - 1];
    forall k | 0 <= k < n - 1 ensures plays[k].row != last.row {
      if k < n - 2 {
        assert Pos(plays[k].row, plays[k].isHome) < Pos(plays[n - 2].row, plays[n - 2].isHome);
        assert Pos(plays[n - 2].row, plays[n - 2].isHome) < Pos(last.row, last.isHome);
      }
    }
  }

  /** The text `read_html` copies into every cell a quarter's opening row spans. */
  const StartText := "Start of 1st quarter"

  /** A quarter's opening row: its time, then its text across the five spanned cells. */
  const StartRow := SourceRow(Some("12:00.0"), Some(StartText), Some(StartText), Some(StartText), Some(StartText), Some(StartText))

  /** A last row holding a different away and home event at a game clock. */
  const BothHalvesRow := SourceRow(Some("0:00.0"), Some("Turnover"), None, Some("0-0"), None, Some("Foul"))

  /** The source: the opening row, then the row with both events. */
  const BothHalvesRows := [StartRow, BothHalvesRow]

  const StartPlay := Play(0, false, "Away", "12:00.0", "0-0", StartText, 0)
  const StartHome := Play(0, true, "Home", "12:00.0", "0-0", StartText, 0)
  const BothAway := Play(1, false, "Away", "0:00.0", "0-0", "Turnover", 0)
  const BothHome := Play(1, true, "Home", "0:00.0", "0-0", "Foul", 0)

  /**
   * As written, when the last source row holds both an away and a home
   * event, both of the plays it yields are flagged as the end of the game.
   * Every column read through `.str` holds text here, so nothing raises
   * before the flag is set.
   */
  lemma EndGameByLabelMarksTwo()
    ensures !Raises(BothHalvesRows)
    ensures Clean(BothHalvesRows, "Away", "Home") == Success([StartPlay, BothAway, BothHome])
    ensures EndGameByLabel([StartPlay, BothAway, BothHome]) == [0, 1, 1] && EndGame(3) == [0, 0, 1]
  {
    BothHalvesClean();
    CleanRaises(BothHalvesRows, "Away", "Home");
    BothHalvesFlags();
  }

  /**
   * Without the opening row neither points column holds text, so pandas
   * reads both as numbers and `points.str.match` raises at line 65.
   */
  lemma NoPointsTextRaises()
    ensures PointsNumeric([BothHalvesRow]) && !ScoresNumeric([BothHalvesRow])
    ensures Clean([BothHalvesRow], "Away", "Home") == Failure(NoStrAccessor)
  {
    var rows := [BothHalvesRow];
    assert !IsDigit("0-0"[1]) && "0-0"[1..][0] == '-';
    assert !NoText(rows[0].score);
    var split := SplitRows(rows, "Away", "Home");
    assert split == [AwayCopy(rows, 0, "Away"), HomeCopy(rows, 0, "Home")];
    var df := Copies(rows, "Away", "Home");
    assert forall c :: c in df ==> c.score.Some?;
  }

  lemma BothHalvesFlags()
    ensures EndGameByLabel([StartPlay, BothAway, BothHome]) == [0, 1, 1] && EndGame(3) == [0, 0, 1]
  {
  }

  lemma BothHalvesClean()
    ensures Clean(BothHalvesRows, "Away", "Home") == Success([StartPlay, BothAway, BothHome])
  {
    var rows := BothHalvesRows;
    var df := BothHalvesCopies();
    BothHalvesText();
    BothHalvesPoints(df);
    BothHalvesPresent();
    var scores := BothHalvesScores();
    BothHalvesPlays(df, scores);
    BothHalvesOnClock();
    BothHalvesDistinct();
    CleanSucceeds(rows, "Away", "Home");
  }

  /** Each of the score, points and time columns holds text. */
  lemma BothHalvesText()
    ensures !NoTextColumn(BothHalvesRows)
  {
    var rows := BothHalvesRows;
    assert ParseInt(StartText).None? by {
      assert !IsDigit(StartText[0]) && !IsDigit(StartText[1]);
    }
    assert ParseInt("12:00.0").None? by {
      assert "12:00.0"[1..][1] == ':';
      assert !IsDigit("12:00.0"[2]);
    }
    assert !NoText(rows[0].score) && !NoText(rows[0].awayPoints) && !NoText(rows[0].time);
  }

  lemma BothHalvesCopies() returns (df: seq<Copy>)
    ensures df == Copies(BothHalvesRows, "Away", "Home")
    ensures df == [AwayCopy(BothHalvesRows, 0, "Away"), HomeCopy(BothHalvesRows, 0, "Home"),
                   AwayCopy(BothHalvesRows, 1, "Away"), HomeCopy(BothHalvesRows, 1, "Home")]
  {
    var rows := BothHalvesRows;
    var split := SplitRows(rows, "Away", "Home");
    assert split == [AwayCopy(rows, 0, "Away"), HomeCopy(rows, 0, "Home"), AwayCopy(rows, 1, "Away"), HomeCopy(rows, 1, "Home")];
    assert WithEvent(split[3..]) == split[3..];
    assert WithEvent(split[2..]) == split[2..];
    assert WithEvent(split[1..]) == split[1..];
    df := Copies(rows, "Away", "Home");
  }

  lemma BothHalvesPoints(df: seq<Copy>)
    requires df == [AwayCopy(BothHalvesRows, 0, "Away"), HomeCopy(BothHalvesRows, 0, "Home"),
                    AwayCopy(BothHalvesRows, 1, "Away"), HomeCopy(BothHalvesRows, 1, "Home")]
    ensures PointsAll(df) == Success([0, 0, 0, 0])
  {
    assert Points(Some(StartText)) == Success(0) by {
      assert StartText[0] != '+';
    }
    assert df[0].points == Some(StartText) && df[1].points == Some(StartText);
    assert df[2].points == None && df[3].points == None;
    PointsZero(df);
    assert seq(4, k => 0) == [0, 0, 0, 0];
  }

  /** Cells that each count 0 convert to a column of zeros. */
  lemma {:induction false} PointsZero(cs: seq<Copy>)
    requires forall k :: 0 <= k < |cs| ==> Points(cs[k].points) == Success(0)
    ensures PointsAll(cs) == Success(seq(|cs|, k => 0))
  {
    if cs != [] {
      PointsZero(cs[1..]);
      assert Points(cs[0].points) == Success(0);
      assert PointsAll(cs) == Success([0] + seq(|cs| - 1, k => 0));
      assert seq(|cs|, k => 0) == [0] + seq(|cs| - 1, k => 0);
    } else {
      assert seq(0, k => 0) == [];
    }
  }

  /** Every copy has a time and a score, and row 0 has one. */
  lemma BothHalvesPresent()
    ensures var df := Copies(BothHalvesRows, "Away", "Home");
            !AnyScoreMissing(df) && !AnyTimeMissing(df) && HasRowZero(df)
  {
    var df := BothHalvesCopies();
    assert df[0] in df && df[0].row == 0;
    assert forall c :: c in df ==> c.score.Some? && c.time.Some?;
  }

  lemma BothHalvesPlays(df: seq<Copy>, scores: seq<Option<string>>)
    requires df == [AwayCopy(BothHalvesRows, 0, "Away"), HomeCopy(BothHalvesRows, 0, "Home"),
                    AwayCopy(BothHalvesRows, 1, "Away"), HomeCopy(BothHalvesRows, 1, "Home")]
    requires scores == [Some("0-0"), Some("0-0"), Some("0-0"), Some("0-0")]
    ensures Assemble(df, scores, [0, 0, 0, 0]) == [StartPlay, StartHome, BothAway, BothHome]
  {
    var ps := Assemble(df, scores, [0, 0, 0, 0]);
    assert ps[0] == StartPlay && ps[1] == StartHome && ps[2] == BothAway && ps[3] == BothHome;
  }

  /** Row 0 is seeded with "0-0" and row 1 already holds it, so the filled scores are all "0-0". */
  lemma BothHalvesScores() returns (scores: seq<Option<string>>)
    ensures var df := Copies(BothHalvesRows, "Away", "Home");
            scores == ForwardFill(MarkedScores(df)) && scores == [Some("0-0"), Some("0-0"), Some("0-0"), Some("0-0")]
  {
    var df := BothHalvesCopies();
    SeedIsScore();
    var marked := MarkedScores(df);
    assert forall k :: 0 <= k < 4 ==> marked[k] == Some("0-0");
    scores := ForwardFill(marked);
    assert forall k :: 0 <= k < 4 ==> scores[k] == marked[k];
  }

  lemma BothHalvesDistinct()
    ensures Dedupe([StartPlay, StartHome, BothAway, BothHome]) == [StartPlay, BothAway, BothHome]
  {
    var ps := [StartPlay, StartHome, BothAway, BothHome];
    StartDeduped();
    assert ps[..3] == [StartPlay, StartHome, BothAway];
    DedupeStep(ps);
    assert !KeySeen([StartPlay, StartHome, BothAway], BothHome) by {
      assert Key(StartPlay).2 != Key(BothHome).2 && Key(StartHome).2 != Key(BothHome).2 && Key(BothAway).2 != Key(BothHome).2;
    }
  }

  /** The home copy of the opening row repeats the away copy's key and goes. */
  lemma StartDeduped()
    ensures Dedupe([StartPlay, StartHome, BothAway]) == [StartPlay, BothAway]
  {
    var ps := [StartPlay, StartHome, BothAway];
    assert ps[..2] == [StartPlay, StartHome] && [StartPlay, StartHome][..1] == [StartPlay] && [StartPlay][..0] == [];
    DedupeStep([StartPlay]);
    DedupeStep([StartPlay, StartHome]);
    assert KeySeen([StartPlay], StartHome) by {
      assert Key(StartPlay) == Key(StartHome);
    }
    DedupeStep(ps);
    assert !KeySeen([StartPlay, StartHome], BothAway) by {
      assert Key(StartPlay).2 != Key(BothAway).2 && Key(StartHome).2 != Key(BothAway).2;
    }
  }

  lemma BothHalvesOnClock()
    ensures OnClock([StartPlay, StartHome, BothAway, BothHome]) == [StartPlay, StartHome, BothAway, BothHome]
  {
    var ps := [StartPlay, StartHome, BothAway, BothHome];
    forall k | 0 <= k < |ps| ensures IsClock(ps[k].time) {
      if k < 2 {
        OpeningClock();
      } else {
        LastMinuteClock();
      }
    }
    OnClockAll(ps);
  }

  lemma LastMinuteClock()
    ensures IsClock("0:00.0")
  {
    var t := "0:00.0";
    assert IsDigits(t[..1]) && t[1] == ':' && IsDigits(t[2..4]) && t[4] != '\n' && IsDigits(t[5..]);
  }

  lemma OpeningClock()
    ensures IsClock("12:00.0")
  {
    var u := "12:00.0";
    assert IsDigits(u[..2]) && u[2] == ':' && IsDigits(u[3..5]) && u[5] != '\n' && IsDigits(u[6..]);
  }

  /** Plays that are all on a clock pass the clock filter unchanged. */
  lemma {:induction false} OnClockAll(ps: seq<Play>)
    requires forall k :: 0 <= k < |ps| ==> IsClock(ps[k].time)
    ensures OnClock(ps) == ps
  {
    if ps != [] {
      OnClockAll(ps[1..]);
    }
  }

  /** The column values of one returned row, from its play and derived flags. */
  function OutRow(gameId: string, p: Play, quarter: nat, start: nat, end: nat): Row
    requires IsScore(p.score)
  {
    var (a, h) := SplitScore(p.score);
    Row(gameId, p.city, if p.isHome then 1 else 0, quarter, start, end, p.time, a, h, p.points, p.event)
  }

  /**
   * `score.str.split('-')` and `astype(int)` of both parts: the away score is
   * the digits before the dash, the home score the digits after it.
   */
  function SplitScore(s: string): (r: (nat, nat))
    requires IsScore(s)
    ensures var a := DigitPrefix(s); r == (NatValue(a), NatValue(s[|a| + 1..]))
  {
    ScoreParts(s);
    var p := Split(s, '-');
    assert s[..|p[0]|] == p[0] && s[|p[0]|] == '-';
    DigitPrefixBefore(s, |p[0]|);
    assert s[|p[0]| + 1..] == p[1];
    (NatValue(p[0]), NatValue(p[1]))
  }

  /** A score written from two counts splits back into them. */
  lemma SplitScoreDecimal(away: nat, home: nat)
    ensures IsScore(Decimal(away) + "-" + Decimal(home))
    ensures SplitScore(Decimal(away) + "-" + Decimal(home)) == (away, home)
  {
    var a := Decimal(away);
    var s := a + "-" + Decimal(home);
    assert s[..|a|] == a;
    DigitPrefixBefore(s, |a|);
    assert s[|a| + 1..] == Decimal(home);
    DecimalValue(away);
    DecimalValue(home);
  }

  /** Every cleaned play has a game clock and a well-formed score. */
  predicate Readable(plays: seq<Play>)
  {
    forall k :: 0 <= k < |plays| ==> IsClock(plays[k].time) && IsScore(plays[k].score)
  }

  lemma CleanedReadable(rows: seq<SourceRow>, away: string, home: string, plays: seq<Play>)
    requires Cleaned(rows, away, home, plays)
    ensures Readable(plays)
  {
    forall k | 0 <= k < |plays| ensures IsClock(plays[k].time) && IsScore(plays[k].score) {
      assert FromSource(rows, away, home, plays[k]);
    }
  }

  /** Row k carries the game id and play k's own cells, with its score split in two. */
  predicate CellsOf(gameId: string, p: Play, o: Row)
    requires IsScore(p.score)
  {
    o.gameId == gameId && o.city == p.city && o.isHome == (if p.isHome then 1 else 0) &&
    o.time == p.time && o.event == p.event && o.points == p.points &&
    (o.scoreAway, o.scoreHome) == SplitScore(p.score)
  }

  /** The minute of play k, and of the play before it (0 before the first). */
  function MinuteAt(plays: seq<Play>, k: int): nat
    requires Readable(plays) && 0 <= k < |plays|
  {
    Minute(plays[k].time)
  }

  function MinuteBefore(plays: seq<Play>, k: int): nat
    requires Readable(plays) && 0 <= k < |plays|
  {
    if k == 0 then 0 else Minute(plays[k - 1].time)
  }

  /**
   * The quarter counter: `start_quarter` is 0 or 1, and `quarter` adds it
   * to the previous row's quarter (0 before the first row).
   */
  predicate Counted(out: seq<Row>)
  {
    forall k :: 0 <= k < |out| ==> CountedAt(out, k)
  }

  predicate CountedAt(out: seq<Row>, k: int)
    requires 0 <= k < |out|
  {
    out[k].startQuarter <= 1 &&
    out[k].quarter == (if k == 0 then 0 else out[k - 1].quarter) + out[k].startQuarter
  }

  /** `start_quarter` is 1 exactly when the minute rises over the previous row's (0 before the first). */
  predicate Starts(plays: seq<Play>, out: seq<Row>)
    requires Readable(plays) && |out| == |plays|
  {
    forall k :: 0 <= k < |out| ==> (out[k].startQuarter == 1 <==> MinuteAt(plays, k) > MinuteBefore(plays, k))
  }

  /** `end_game` is 1 on the last row only. */
  predicate LastEnds(out: seq<Row>)
  {
    forall k :: 0 <= k < |out| ==> out[k].endGame == (if k == |out| - 1 then 1 else 0)
  }

  /** The returned rows against the cleaned plays, row by row. */
  predicate Game(gameId: string, plays: seq<Play>, out: seq<Row>)
  {
    |out| == |plays| && Readable(plays) &&
    (forall k :: 0 <= k < |out| ==> CellsOf(gameId, plays[k], out[k])) &&
    Counted(out) && Starts(plays, out) && LastEnds(out)
  }

  /**
   * The play-by-play frame of a game: the shared cleaning, then the minute
   * (line 78), the quarter counter (79-81), the end-of-game flag (84-85), the
   * score halves (88-90) and the game id (92), with the helper columns gone
   * (94-109). Fails where the source raises: in the cleaning, or at
   * `df.index[-1]` when no play is left.
   */
  method GetPlayByPlay(gameId: string, rows: seq<SourceRow>, away: string, home: string)
    returns (r: Result<seq<Row>, string>)
    ensures r.Failure? <==> Raises(rows) || Clean(rows, away, home) == Success([])
    ensures r.Success? ==> Clean(rows, away, home).Success? && Game(gameId, Clean(rows, away, home).value, r.value)
  {
    var cleaned := Clean(rows, away, home);
    CleanRaises(rows, away, home);
    if cleaned.Failure? {
      return Failure(cleaned.error);
    }
    var df := cleaned.value;
    assert Readable(df) by {
      CleanCleaned(rows, away, home);
      CleanedReadable(rows, away, home, df);
    }
    if |df| == 0 {
      return Failure("IndexError: index -1 is out of bounds for axis 0 with size 0");
    }
    return Success(GameFrame(gameId, df));
  }

  /** Lines 94-109 on a non-empty cleaned frame: the quarter and end-of-game flags, and the output columns. */
  function GameFrame(gameId: string, df: seq<Play>): (out: seq<Row>)
    requires Readable(df) && |df| > 0
    ensures Game(gameId, df, out)
  {
    var minute := Minutes(df);
    var startQuarter := StartQuarter(minute);
    var quarter := CumSum(startQuarter);
    var endGame := EndGame(|df|);
    var out := seq(|df|, k requires 0 <= k < |df| => OutRow(gameId, df[k], quarter[k], startQuarter[k], endGame[k]));
    FrameIsGame(gameId, df, quarter, startQuarter, endGame, out);
    out
  }

  lemma FrameIsGame(gameId: string, df: seq<Play>, quarter: seq<nat>, startQuarter: seq<nat>, endGame: seq<nat>, out: seq<Row>)
    requires Readable(df) && |df| > 0
    requires startQuarter == StartQuarter(Minutes(df)) && quarter == CumSum(startQuarter) && endGame == EndGame(|df|)
    requires out == seq(|df|, k requires 0 <= k < |df| => OutRow(gameId, df[k], quarter[k], startQuarter[k], endGame[k]))
    ensures Game(gameId, df, out)
  {
    FrameCells(gameId, df, quarter, startQuarter, endGame, out);
    FrameCounted(gameId, df, quarter, startQuarter, endGame, out);
  }

  lemma FrameCells(gameId: string, df: seq<Play>, quarter: seq<nat>, startQuarter: seq<nat>, endGame: seq<nat>, out: seq<Row>)
    requires Readable(df) && |df| == |quarter| == |startQuarter| == |endGame|
    requires out == seq(|df|, k requires 0 <= k < |df| => OutRow(gameId, df[k], quarter[k], startQuarter[k], endGame[k]))
    ensures forall k :: 0 <= k < |out| ==> CellsOf(gameId, df[k], out[k]) && out[k].endGame == endGame[k]
  {
    forall k | 0 <= k < |out| ensures CellsOf(gameId, df[k], out[k]) && out[k].endGame == endGame[k] {
      assert out[k] == OutRow(gameId, df[k], quarter[k], startQuarter[k], endGame[k]);
    }
  }

  lemma FrameCounted(gameId: string, df: seq<Play>, quarter: seq<nat>, startQuarter: seq<nat>, endGame: seq<nat>, out: seq<Row>)
    requires Readable(df) && |df| == |endGame|
    requires startQuarter == StartQuarter(Minutes(df)) && quarter == CumSum(startQuarter)
    requires out == seq(|df|, k requires 0 <= k < |df| => OutRow(gameId, df[k], quarter[k], startQuarter[k], endGame[k]))
    ensures Counted(out) && Starts(df, out)
  {
    forall k | 0 <= k < |out| ensures CountedAt(out, k) && out[k].startQuarter == startQuarter[k] {
      assert out[k] == OutRow(gameId, df[k], quarter[k], startQuarter[k], endGame[k]);
      if k > 0 {
        assert out[k - 1] == OutRow(gameId, df[k - 1], quarter[k - 1], startQuarter[k - 1], endGame[k - 1]);
      }
    }
  }

  /** The quarter counter never goes down. */
  lemma {:induction false} QuarterNeverDecreases(out: seq<Row>, j: int, k: int)
    requires Counted(out)
    requires 0 <= j <= k < |out|
    ensures out[j].quarter <= out[k].quarter
    decreases k - j
  {
    if j < k {
      assert CountedAt(out, k);
      QuarterNeverDecreases(out, j, k - 1);
    }
  }

  /** From one row to the next the quarter rises by one exactly when the minute rises, else stays. */
  lemma QuarterStep(plays: seq<Play>, out: seq<Row>, k: int)
    requires Readable(plays) && |out| == |plays| && Counted(out) && Starts(plays, out)
    requires 0 < k < |out|
    ensures out[k].quarter <= out[k - 1].quarter + 1 && out[k - 1].quarter <= out[k].quarter
    ensures out[k].quarter == out[k - 1].quarter + 1 <==> Minute(plays[k].time) > Minute(plays[k - 1].time)
  {
    assert CountedAt(out, k);
  }

  /** The `start_quarter` column. */
  function StartColumn(out: seq<Row>): (r: seq<nat>)
    ensures |r| == |out| && forall k :: 0 <= k < |out| ==> r[k] == out[k].startQuarter
  {
    seq(|out|, k requires 0 <= k < |out| => out[k].startQuarter)
  }

  /** The quarter of row k counts the rows up to k at which a quarter starts. */
  lemma {:induction false} QuarterCounts(out: seq<Row>, k: int)
    requires Counted(out)
    requires 0 <= k < |out|
    ensures out[k].quarter == Sum(StartColumn(out)[..k + 1])
  {
    var starts := StartColumn(out);
    SumPrefixes(starts);
    assert CountedAt(out, k);
    assert Sum(starts[..k + 1]) == Sum(starts[..k]) + starts[k];
    if k == 0 {
      assert starts[..0] == [];
    } else {
      QuarterCounts(out, k - 1);
    }
  }

  /** Every row carries the game id, and the score columns rebuild the play's score. */
  lemma RowsStamped(gameId: string, plays: seq<Play>, out: seq<Row>, k: int)
    requires Game(gameId, plays, out)
    requires 0 <= k < |out|
    ensures out[k].gameId == gameId && out[k].endGame == (if k == |out| - 1 then 1 else 0)
    ensures var a := DigitPrefix(plays[k].score);
            out[k].scoreAway == NatValue(a) && out[k].scoreHome == NatValue(plays[k].score[|a| + 1..])
  {
    assert CellsOf(gameId, plays[k], out[k]);
  }
}
