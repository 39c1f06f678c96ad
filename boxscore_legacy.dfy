// The older boxscore scraper of src/nba/boxscore.py. Its per-team parsing,
// tagging and joins are those of the packaged scraper; it differs in how it
// cuts the line score (dropping the total column `T`), in keeping the
// advanced tables' unnamed BPM column as it is, and in its last steps: no
// sentinel scrubbing, no BPM fallback, no column selection.
module BoxscoreLegacy {
  import opened Wrappers
  import opened Text
  import opened Frames
  import opened Boxscore

  /** Removing a label that only ends a list leaves the rest of the list. */
  lemma {:induction false} RemoveLast(cols: seq<string>, c: string)
    requires c !in cols
    ensures Remove(cols + [c], c) == cols
  {
    if cols != [] {
      assert (cols + [c])[1..] == cols[1..] + [c];
      RemoveLast(cols[1..], c);
    }
  }

  /**
   * Lines 46-48: the Scoring group without its total column `T`, its five
   * remaining columns named TEAM and PTS_Q1 to PTS_Q4, with PLAYER `All`
   * inserted second. A missing `T`, or any column count but five once it
   * is gone, makes pandas raise.
   */
  /** Lines 46-48 as one value. */
  function LegacyScoringOf(line: Frame): Result<Frame, string>
  {
    var dropped :- Drop(line, "T");
    var named :- SetColumns(dropped, ScoringNames);
    Insert(named, 1, "PLAYER", Text("All"))
  }

  method LegacyScoring(line: Frame) returns (r: Result<Frame, string>)
    ensures r == LegacyScoringOf(line)
    ensures r.Failure? <==> "T" !in line.columns || |Remove(line.columns, "T")| != 5
    ensures r.Success? ==> r.value.columns == ["TEAM", "PLAYER"] + Quarters && |r.value.rows| == |line.rows|
    ensures r.Success? ==> forall k :: 0 <= k < |line.rows| ==> Get(r.value.rows[k], "PLAYER") == Text("All")
    ensures r.Success? ==> forall k, i :: 0 <= k < |line.rows| && 0 <= i < 5 ==>
      Get(r.value.rows[k], ScoringNames[i]) == Get(line.rows[k], Remove(line.columns, "T")[i])
  {
    var dropped :- Drop(line, "T");
    var named :- SetColumns(dropped, ScoringNames);
    assert "PLAYER" !in ScoringNames;
    var scoring := Insert(named, 1, "PLAYER", Text("All"));
    LegacyScoringCells(line, dropped, named, scoring.value);
    return scoring;
  }

  lemma LegacyScoringCells(line: Frame, dropped: Frame, named: Frame, scoring: Frame)
    requires Drop(line, "T") == Success(dropped)
    requires SetColumns(dropped, ScoringNames) == Success(named)
    requires Insert(named, 1, "PLAYER", Text("All")) == Success(scoring)
    ensures scoring.columns == ["TEAM", "PLAYER"] + Quarters && |scoring.rows| == |line.rows|
    ensures forall k, i :: 0 <= k < |line.rows| && 0 <= i < 5 ==>
      Get(scoring.rows[k], ScoringNames[i]) == Get(line.rows[k], Remove(line.columns, "T")[i])
  {
    ScoringNamesUnique();
    assert ScoringNames[..1] + ["PLAYER"] + ScoringNames[1..] == ["TEAM", "PLAYER"] + Quarters;
    forall k, i | 0 <= k < |line.rows| && 0 <= i < 5
      ensures Get(scoring.rows[k], ScoringNames[i]) == Get(line.rows[k], Remove(line.columns, "T")[i])
    {
      assert ScoringNames[i] != "PLAYER";
      assert dropped.columns[i] != "T";
    }
  }

  /**
   * A game that went to overtime has a Scoring column per extra period
   * before `T`, so six columns remain once `T` is dropped and the renaming
   * to five names raises: the legacy scraper fails on every overtime game.
   */
  lemma LegacyOvertime(team: string, periods: seq<string>)
    requires |periods| == 5 && "T" !in periods && team != "T"
    ensures |Remove([team] + periods + ["T"], "T")| != 5
  {
    assert [team] + periods + ["T"] == ([team] + periods) + ["T"];
    RemoveLast([team] + periods, "T");
  }

  /** The line score with its total column taken out, as the legacy scoring table reads it. */
  function Untotalled(line: Frame): Frame
  {
    Frame(Remove(line.columns, "T"), line.rows)
  }

  /** Removing a label keeps a frame free of quarter labels. */
  lemma DroppedNoQuarters(f: Frame, c: string, g: Frame)
    requires NoQuarters(f.columns) && Drop(f, c) == Success(g)
    ensures NoQuarters(g.columns)
  {
  }

  /** Lines 78-82 as one value: the advanced rows without MP, merged with the basic rows (inner), then the scoring rows (left). */
  function LegacyMerged(basic: Frame, advancedAll: Frame, scoring: Frame): Result<Frame, string>
  {
    var advanced :- Drop(advancedAll, "MP");
    var inner :- Merge(basic, advanced, ["TEAM", "IS_HOME", "PLAYER"], Inner);
    Merge(inner, scoring, ["TEAM", "PLAYER"], LeftJoin)
  }

  /** Lines 44-82 as one value. */
  function LegacyJoinOf(read: Reader, text: string, fold: char -> string): Result<Joined, string>
  {
    var line :- Read(read, text, "line_score");
    var scoring :- LegacyScoringOf(line);
    if |scoring.rows| != 2 then Failure("ValueError: expected 2 teams in the line score")
    else if !Get(scoring.rows[0], "TEAM").Text? || !Get(scoring.rows[1], "TEAM").Text? then
      Failure("ValueError: no team abbreviation in the line score")
    else
      var away, home := Get(scoring.rows[0], "TEAM").text, Get(scoring.rows[1], "TEAM").text;
      var basic :- Stacked(read, text, fold, away, home, "basic");
      var advancedAll :- Stacked(read, text, fold, away, home, "advanced");
      var box :- LegacyMerged(basic, advancedAll, scoring);
      Success(Joined(box, away, home))
  }

  /** The legacy merges keep every row tagged, and take their quarters from the line score only. */
  lemma LegacyJoined(line: Frame, scoring: Frame, basic: Frame, advancedAll: Frame, advanced: Frame,
                     inner: Frame, box: Frame, away: string, home: string, unquartered: bool)
    requires |line.columns| >= 5 && |line.rows| == 2
    requires scoring.columns == ["TEAM", "PLAYER"] + Quarters && |scoring.rows| == 2
    requires forall j :: 0 <= j < 2 ==> Get(scoring.rows[j], "PLAYER") == Text("All")
    requires forall j, i :: 0 <= j < 2 && 0 <= i < 5 ==> Get(scoring.rows[j], ScoringNames[i]) == Get(line.rows[j], line.columns[i])
    requires |basic.columns| >= 2 && basic.columns[1] == "IS_HOME"
    requires forall k :: 0 <= k < |basic.rows| ==> Tagged(basic.rows[k], away, home)
    requires unquartered ==> NoQuarters(basic.columns) && NoQuarters(advancedAll.columns)
    requires Drop(advancedAll, "MP") == Success(advanced)
    requires Merge(basic, advanced, ["TEAM", "IS_HOME", "PLAYER"], Inner) == Success(inner)
    requires Merge(inner, scoring, ["TEAM", "PLAYER"], LeftJoin) == Success(box)
    ensures LegacyMerged(basic, advancedAll, scoring) == Success(box)
    ensures forall k :: 0 <= k < |box.rows| ==> Tagged(box.rows[k], away, home)
    ensures unquartered ==> PlayersUnscored(box)
    ensures unquartered && Get(line.rows[0], line.columns[0]) != Get(line.rows[1], line.columns[0]) ==> CarriesLine(box, line)
  {
    JoinedTags(basic, advanced, scoring, inner, box, away, home);
    if unquartered {
      DroppedNoQuarters(advancedAll, "MP", advanced);
      MergedNoQuarters(basic.columns, advanced.columns, ["TEAM", "IS_HOME", "PLAYER"]);
      ScoredRows(line, scoring, inner, box);
    }
  }

  /**
   * What the legacy joins of lines 44-82 give: a line score with a `T`
   * column and five others, the teams read off it, away first; the joined
   * rows exactly the merges of the two teams' stacked basic and advanced
   * tables and of the scoring rows; every row tagged with one of the teams
   * and its side; and, when no table has quarter columns of its own,
   * quarter points on the `All` rows only.
   */
  ghost predicate LegacyJoinedFrom(read: Reader, text: string, fold: char -> string, j: Joined)
  {
    && read(text, "line_score").Some? && "T" in read(text, "line_score").value.columns
    && LineTeams(Some(Untotalled(read(text, "line_score").value)), j.away, j.home)
    && |Untotalled(read(text, "line_score").value).columns| == 5
    && LegacyScoringOf(read(text, "line_score").value).Success?
    && Stacked(read, text, fold, j.away, j.home, "basic").Success?
    && Stacked(read, text, fold, j.away, j.home, "advanced").Success?
    && LegacyMerged(Stacked(read, text, fold, j.away, j.home, "basic").value, Stacked(read, text, fold, j.away, j.home, "advanced").value,
                    LegacyScoringOf(read(text, "line_score").value).value) == Success(j.box)
    && (forall k :: 0 <= k < |j.box.rows| ==> Tagged(j.box.rows[k], j.away, j.home))
    && (Unquartered(read, text) ==> PlayersUnscored(j.box))
    && (Unquartered(read, text) && j.away != j.home ==> CarriesLine(j.box, Untotalled(read(text, "line_score").value)))
  }

  /**
   * Lines 44-82: the legacy joins. The teams are read off the line score,
   * away first; both sides' basic and advanced tables are stacked home over
   * away (the advanced ones without MP), merged on team, side and player,
   * and the scoring table is left-merged on team and player.
   */
  method LegacyJoin(read: Reader, text: string, fold: char -> string) returns (r: Result<Joined, string>)
    ensures r == LegacyJoinOf(read, text, fold)
    ensures read(text, "line_score").None? ==> r.Failure?
    ensures r.Success? ==> LegacyJoinedFrom(read, text, fold, r.value)
  {
    var line :- Read(read, text, "line_score");
    var scoring :- LegacyScoring(line);
    if |scoring.rows| != 2 {
      return Failure("ValueError: expected 2 teams in the line score");
    }
    var awayCell, homeCell := Get(scoring.rows[0], "TEAM"), Get(scoring.rows[1], "TEAM");
    if !awayCell.Text? || !homeCell.Text? {
      return Failure("ValueError: no team abbreviation in the line score");
    }
    var away, home := awayCell.text, homeCell.text;
    ghost var cut := Untotalled(line);
    assert Get(scoring.rows[0], ScoringNames[0]) == Get(cut.rows[0], cut.columns[0]);
    assert Get(scoring.rows[1], ScoringNames[0]) == Get(cut.rows[1], cut.columns[0]);
    var basic :- StackedTables(read, text, fold, away, home, "basic");
    var advancedAll :- StackedTables(read, text, fold, away, home, "advanced");
    var advanced :- Drop(advancedAll, "MP");
    var inner :- Merge(basic, advanced, ["TEAM", "IS_HOME", "PLAYER"], Inner);
    var box :- Merge(inner, scoring, ["TEAM", "PLAYER"], LeftJoin);
    LegacyJoined(cut, scoring, basic, advancedAll, advanced, inner, box, away, home, Unquartered(read, text));
    return Success(Joined(box, away, home));
  }

  /** `+/-` renamed to PLUS_MINUS, every other label kept. */
  function PlusMinusName(c: string): string
  {
    if c == "+/-" then "PLUS_MINUS" else c
  }

  /**
   * What lines 83-91 make of the joined frame `box`: GAME_ID first, then
   * every label under its heading with `+/-` as PLUS_MINUS, row for row;
   * each other cell kept, the game id on every row, and MP read as minutes.
   */
  ghost predicate LegacyFinished(gameId: string, box: Frame, out: Frame)
  {
    && |out.columns| == |box.columns| + 1 && out.columns[0] == "GAME_ID" && |out.rows| == |box.rows|
    && (forall i :: 0 <= i < |box.columns| ==> out.columns[i + 1] == PlusMinusName(Heading(box.columns[i])))
    && (forall k, d ::
          (0 <= k < |box.rows| && Alone(box.columns, Heading, d)
           && Heading(d) != "GAME_ID" && Heading(d) != "+/-" && Heading(d) != "PLUS_MINUS" && Heading(d) != "MP") ==>
          Get(out.rows[k], Heading(d)) == Get(box.rows[k], d))
    && (Fresh(box.columns, "GAME_ID") ==> forall k :: 0 <= k < |box.rows| ==> Get(out.rows[k], "GAME_ID") == Text(gameId))
    && (forall k, d :: 0 <= k < |box.rows| && Alone(box.columns, Heading, d) && Heading(d) == "MP" ==>
          Success(Get(out.rows[k], "MP")) == MinutesPlayed(Get(box.rows[k], d)))
  }

  /**
   * Lines 83-91: GAME_ID inserted first, the labels made headings with
   * `+/-` as PLUS_MINUS, and MP read as minutes. Nothing scrubs the
   * sentinel cells first, so a player listed as `Player Suspended`, `Did
   * Not Dress` or `Not With Team` makes the minutes conversion raise.
   */
  /** Lines 83-91 as one value. */
  function LegacyFinishOf(gameId: string, box: Frame): Result<Frame, string>
  {
    var box1 :- Insert(box, 0, "GAME_ID", Text(gameId));
    MapColumn(Rename(Relabel(box1, Heading), "+/-", "PLUS_MINUS"), "MP", MinutesPlayed)
  }

  method LegacyFinish(gameId: string, box: Frame) returns (r: Result<Frame, string>)
    ensures r == LegacyFinishOf(gameId, box)
    ensures "GAME_ID" in box.columns || Fresh(box.columns, "MP") ==> r.Failure?
    ensures forall d :: "GAME_ID" !in box.columns && Alone(box.columns, Heading, d) && Heading(d) == "MP" ==>
      (r.Failure? <==> exists k :: 0 <= k < |box.rows| && MinutesPlayed(Get(box.rows[k], d)).Failure?)
    ensures (exists k, d :: (0 <= k < |box.rows| && Alone(box.columns, Heading, d) && Heading(d) == "MP"
                             && Get(box.rows[k], d).Text? && IsSentinel(Get(box.rows[k], d).text))) ==> r.Failure?
    ensures r.Success? ==> LegacyFinished(gameId, box, r.value)
  {
    var box1 :- Insert(box, 0, "GAME_ID", Text(gameId));
    var box3 := Rename(Relabel(box1, Heading), "+/-", "PLUS_MINUS");
    LegacyHeadings(gameId, box, box1, box3);
    if Fresh(box.columns, "MP") {
      HeadFresh(gameId, box, box1, box3, "MP");
    }
    LegacySentinels(gameId, box, box1, box3);
    forall d | Alone(box.columns, Heading, d) && Heading(d) == "MP"
      ensures MapColumn(box3, "MP", MinutesPlayed).Failure? <==> exists k :: 0 <= k < |box.rows| && MinutesPlayed(Get(box.rows[k], d)).Failure?
    {
      LegacyMinutesFail(gameId, box, box1, box3, d);
    }
    var out :- MapColumn(box3, "MP", MinutesPlayed);
    LegacyCells(gameId, box, box1, box3, out);
    return Success(out);
  }

  /** With one label headed MP, the conversion fails exactly on a cell of it that does not read as minutes. */
  lemma LegacyMinutesFail(gameId: string, box: Frame, box1: Frame, box3: Frame, d: string)
    requires HeadSteps(gameId, box, box1, box3)
    requires Alone(box.columns, Heading, d) && Heading(d) == "MP"
    ensures MapColumn(box3, "MP", MinutesPlayed).Failure? <==> exists k :: 0 <= k < |box.rows| && MinutesPlayed(Get(box.rows[k], d)).Failure?
  {
    OwnHeadings();
    assert Heading(d) != "GAME_ID" && Heading(d) != "+/-" && Heading(d) != "PLUS_MINUS";
    forall k | 0 <= k < |box.rows| ensures "MP" in box3.columns && |box3.rows| == |box.rows| && Get(box3.rows[k], "MP") == Get(box.rows[k], d) {
      HeadCell(gameId, box, box1, box3, k, d);
    }
    InsertedId(box, gameId, box1);
    HeadedCells(box1, box3);
  }

  /** The headed labels are the joined labels under their headings, after GAME_ID. */
  lemma LegacyHeadings(gameId: string, box: Frame, box1: Frame, box3: Frame)
    requires HeadSteps(gameId, box, box1, box3)
    ensures |box3.columns| == |box.columns| + 1 && box3.columns[0] == "GAME_ID" && |box3.rows| == |box.rows|
    ensures forall i :: 0 <= i < |box.columns| ==> box3.columns[i + 1] == PlusMinusName(Heading(box.columns[i]))
  {
    assert box1.columns == ["GAME_ID"] + box.columns && |box1.rows| == |box.rows| by { IdInFront(box, gameId, box1); }
    HeadedLabels(box1, box3.columns);
    OwnHeadings();
    forall i | 0 <= i < |box.columns| ensures box3.columns[i + 1] == PlusMinusName(Heading(box.columns[i])) {
      assert box1.columns[i + 1] == box.columns[i];
    }
  }

  /** GAME_ID is inserted as the first label. */
  lemma IdInFront(box: Frame, gameId: string, box1: Frame)
    requires Insert(box, 0, "GAME_ID", Text(gameId)) == Success(box1)
    ensures box1.columns == ["GAME_ID"] + box.columns && |box1.rows| == |box.rows|
  {
    assert box.columns[..0] == [] && box.columns[0..] == box.columns;
  }

  /** Relabelling then renaming sends each label to its heading, `+/-` to PLUS_MINUS. */
  lemma HeadedLabels(box1: Frame, cols: seq<string>)
    requires cols == Rename(Relabel(box1, Heading), "+/-", "PLUS_MINUS").columns
    ensures |cols| == |box1.columns|
    ensures forall i :: 0 <= i < |cols| ==> cols[i] == PlusMinusName(Heading(box1.columns[i]))
  {
  }

  /** A sentinel left in a headed MP cell makes the conversion fail. */
  lemma LegacySentinels(gameId: string, box: Frame, box1: Frame, box3: Frame)
    requires HeadSteps(gameId, box, box1, box3)
    ensures (exists k, d :: (0 <= k < |box.rows| && Alone(box.columns, Heading, d) && Heading(d) == "MP"
                             && Get(box.rows[k], d).Text? && IsSentinel(Get(box.rows[k], d).text))) ==> MapColumn(box3, "MP", MinutesPlayed).Failure?
  {
    if exists k, d :: (0 <= k < |box.rows| && Alone(box.columns, Heading, d) && Heading(d) == "MP"
                       && Get(box.rows[k], d).Text? && IsSentinel(Get(box.rows[k], d).text))
    {
      var k, d :| 0 <= k < |box.rows| && Alone(box.columns, Heading, d) && Heading(d) == "MP"
        && Get(box.rows[k], d).Text? && IsSentinel(Get(box.rows[k], d).text);
      HeadCell(gameId, box, box1, box3, k, d);
      MinutesRaiseOnSentinel(Get(box.rows[k], d).text);
    }
  }

  /** The cells of the legacy result, column by column. */
  lemma LegacyCells(gameId: string, box: Frame, box1: Frame, box3: Frame, out: Frame)
    requires HeadSteps(gameId, box, box1, box3)
    requires MapColumn(box3, "MP", MinutesPlayed) == Success(out)
    ensures forall k, d ::
      (0 <= k < |box.rows| && Alone(box.columns, Heading, d)
       && Heading(d) != "GAME_ID" && Heading(d) != "+/-" && Heading(d) != "PLUS_MINUS" && Heading(d) != "MP") ==>
      Get(out.rows[k], Heading(d)) == Get(box.rows[k], d)
    ensures Fresh(box.columns, "GAME_ID") ==> forall k :: 0 <= k < |box.rows| ==> Get(out.rows[k], "GAME_ID") == Text(gameId)
    ensures forall k, d :: 0 <= k < |box.rows| && Alone(box.columns, Heading, d) && Heading(d) == "MP" ==>
      Success(Get(out.rows[k], "MP")) == MinutesPlayed(Get(box.rows[k], d))
  {
    forall k, d | 0 <= k < |box.rows| && Alone(box.columns, Heading, d)
      && Heading(d) != "GAME_ID" && Heading(d) != "+/-" && Heading(d) != "PLUS_MINUS" && Heading(d) != "MP"
      ensures Get(out.rows[k], Heading(d)) == Get(box.rows[k], d)
    {
      HeadCell(gameId, box, box1, box3, k, d);
    }
    if Fresh(box.columns, "GAME_ID") {
      forall k | 0 <= k < |box.rows| ensures Get(out.rows[k], "GAME_ID") == Text(gameId) {
        HeadId(gameId, box, box1, box3, k);
      }
    }
    forall k, d | 0 <= k < |box.rows| && Alone(box.columns, Heading, d) && Heading(d) == "MP"
      ensures Success(Get(out.rows[k], "MP")) == MinutesPlayed(Get(box.rows[k], d))
    {
      HeadCell(gameId, box, box1, box3, k, d);
    }
  }

  /**
   * `boxscore` (lines 33-95) on the page already fetched: the comment
   * markers are deleted, the tables joined and the result headed. The
   * source prints this frame instead of returning it; the model returns it.
   * `joined` names the intermediate joined frame, so that the result can
   * be stated row for row against it.
   */
  /** Lines 33-91 as one value, on the page already fetched. */
  function LegacyBoxscoreOf(gameId: string, page: string, read: Reader, fold: char -> string): Result<Frame, string>
  {
    var j :- LegacyJoinOf(read, StripComments(page), fold);
    LegacyFinishOf(gameId, j.box)
  }

  method LegacyBoxscore(gameId: string, page: string, read: Reader, fold: char -> string)
    returns (r: Result<Frame, string>, ghost joined: Joined)
    ensures r == LegacyBoxscoreOf(gameId, page, read, fold)
    ensures r.Success? ==> LegacyJoinOf(read, StripComments(page), fold) == Success(joined) && LegacyFinishOf(gameId, joined.box) == r
    ensures read(StripComments(page), "line_score").None? ==> r.Failure?
    ensures r.Success? ==> LegacyJoinedFrom(read, StripComments(page), fold, joined)
    ensures r.Success? ==> "GAME_ID" !in joined.box.columns && !Fresh(joined.box.columns, "MP")
    ensures r.Success? ==> forall k, d :: (0 <= k < |joined.box.rows| && Alone(joined.box.columns, Heading, d) && Heading(d) == "MP") ==>
      !(Get(joined.box.rows[k], d).Text? && IsSentinel(Get(joined.box.rows[k], d).text))
    ensures r.Success? ==> LegacyFinished(gameId, joined.box, r.value)
  {
    var html := StripComments(page);
    var j := LegacyJoin(read, html, fold);
    if j.Failure? {
      r, joined := Failure(j.error), Joined(Frame([], []), "", "");
      return;
    }
    joined := j.value;
    r := LegacyFinish(gameId, j.value.box);
  }
}
