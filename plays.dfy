// The cleaning both play-by-play scrapers apply to the `1st Q` table of a
// game's play-by-play page once it has been read: each source row is split
// into an away copy and a home copy, copies without an event are dropped,
// the score is forward-filled from the last well-formed score, `+N` cells
// become points, rows without a game clock go, and duplicates go.
module Plays {
  import opened Wrappers
  import opened Text

  /**
   * One row of the `1st Q` table, its six cells in column order: time, away
   * event, away points, score, home points, home event. A cell the table
   * leaves empty is None.
   */
  datatype SourceRow = SourceRow(
    time: Option<string>,
    awayEvent: Option<string>,
    awayPoints: Option<string>,
    score: Option<string>,
    homePoints: Option<string>,
    homeEvent: Option<string>)

  /**
   * One team's half of a source row. `row` is the index label of the source
   * row, which both halves keep through the concatenation.
   */
  datatype Copy = Copy(
    row: nat,
    isHome: bool,
    city: string,
    time: Option<string>,
    score: Option<string>,
    event: Option<string>,
    points: Option<string>)

  /** A cleaned play: every cell present, points parsed. */
  datatype Play = Play(
    row: nat,
    isHome: bool,
    city: string,
    time: string,
    score: string,
    event: string,
    points: nat)

  /**
   * The place of a copy after `concat((away, home)).sort_index()`: by label,
   * and, since that sort is not stable, away first by the model's choice.
   */
  function Pos(row: nat, isHome: bool): nat
  {
    2 * row + (if isHome then 1 else 0)
  }

  predicate OrderedCopies(cs: seq<Copy>)
  {
    forall j, k :: 0 <= j < k < |cs| ==> Pos(cs[j].row, cs[j].isHome) < Pos(cs[k].row, cs[k].isHome)
  }

  predicate OrderedPlays(ps: seq<Play>)
  {
    forall j, k :: 0 <= j < k < |ps| ==> Pos(ps[j].row, ps[j].isHome) < Pos(ps[k].row, ps[k].isHome)
  }

  function AwayCopy(rows: seq<SourceRow>, i: nat, away: string): Copy
    requires i < |rows|
  {
    Copy(i, false, away, rows[i].time, rows[i].score, rows[i].awayEvent, rows[i].awayPoints)
  }

  function HomeCopy(rows: seq<SourceRow>, i: nat, home: string): Copy
    requires i < |rows|
  {
    Copy(i, true, home, rows[i].time, rows[i].score, rows[i].homeEvent, rows[i].homePoints)
  }

  /**
   * The away frame (city = away header) and the home frame (city = home
   * header) concatenated and sorted by label: source row i gives the copies
   * at 2i (away) and 2i + 1 (home), sharing its time and score. The order
   * within a label is the model's choice (see `Pos`).
   */
  function SplitRows(rows: seq<SourceRow>, away: string, home: string): (r: seq<Copy>)
    ensures |r| == 2 * |rows|
    ensures forall i :: 0 <= i < |rows| ==>
              r[2 * i] == AwayCopy(rows, i, away) && r[2 * i + 1] == HomeCopy(rows, i, home)
    ensures forall k :: 0 <= k < |r| ==> r[k].row < |rows| && Pos(r[k].row, r[k].isHome) == k
    ensures OrderedCopies(r)
  {
    seq(2 * |rows|, k requires 0 <= k < 2 * |rows| =>
      if k % 2 == 0 then AwayCopy(rows, k / 2, away) else HomeCopy(rows, k / 2, home))
  }

  /** A copy of the split frame is the away or the home half of the source row its row names. */
  lemma CopyOrigin(rows: seq<SourceRow>, away: string, home: string, c: Copy)
    requires c in SplitRows(rows, away, home)
    ensures c.row < |rows|
    ensures c == if c.isHome then HomeCopy(rows, c.row, home) else AwayCopy(rows, c.row, away)
  {
    var r := SplitRows(rows, away, home);
    var k :| 0 <= k < |r| && r[k] == c;
    assert Pos(c.row, c.isHome) == k;
    assert r[2 * c.row] == AwayCopy(rows, c.row, away);
    assert r[2 * c.row + 1] == HomeCopy(rows, c.row, home);
  }

  /** `df[~df.event.isnull()]`: the copies with an event, in their order. */
  function WithEvent(cs: seq<Copy>): (r: seq<Copy>)
    ensures |r| <= |cs|
    ensures forall c :: c in r <==> c in cs && c.event.Some?
    ensures OrderedCopies(cs) ==> OrderedCopies(r)
  {
    if cs == [] then []
    else
      var rest := WithEvent(cs[1..]);
      assert forall c :: c in cs <==> c == cs[0] || c in cs[1..];
      OrderedTail(cs);
      if cs[0].event.Some? then
        OrderedCons(cs, rest);
        [cs[0]] + rest
      else rest
  }

  lemma OrderedTail(cs: seq<Copy>)
    requires cs != []
    ensures OrderedCopies(cs) ==> OrderedCopies(cs[1..])
  {
    if OrderedCopies(cs) {
      var t := cs[1..];
      forall j, k | 0 <= j < k < |t| ensures Pos(t[j].row, t[j].isHome) < Pos(t[k].row, t[k].isHome) {
        assert t[j] == cs[j + 1] && t[k] == cs[k + 1];
      }
    }
  }

  /** The first copy comes before any kept later copy. */
  lemma OrderedCons(cs: seq<Copy>, rest: seq<Copy>)
    requires cs != []
    requires forall c :: c in rest ==> c in cs[1..]
    requires OrderedCopies(cs) ==> OrderedCopies(rest)
    ensures OrderedCopies(cs) ==> OrderedCopies([cs[0]] + rest)
  {
    if OrderedCopies(cs) {
      var r := [cs[0]] + rest;
      forall j, k | 0 <= j < k < |r| ensures Pos(r[j].row, r[j].isHome) < Pos(r[k].row, r[k].isHome) {
        if j == 0 {
          assert r[k] in cs[1..];
          var i :| 0 <= i < |cs[1..]| && cs[1..][i] == r[k];
          assert cs[1..][i] == cs[i + 1];
        } else {
          assert r[j] == rest[j - 1] && r[k] == rest[k - 1];
        }
      }
    }
  }

  /** `^\d+(-\d+)$`: a run of digits, a dash, a run of digits. */
  predicate IsScore(s: string)
  {
    var a := DigitPrefix(s);
    0 < |a| < |s| && s[|a|] == '-' && IsDigits(s[|a| + 1..])
  }

  lemma SeedIsScore()
    ensures IsScore("0-0")
  {
    assert DigitPrefix("0-0") == "0";
  }

  /** A score splits at its dash into the away and the home digits. */
  lemma {:induction false} ScoreParts(s: string)
    requires IsScore(s)
    ensures var p := Split(s, '-'); |p| == 2 && IsDigits(p[0]) && IsDigits(p[1]) && s == p[0] + "-" + p[1]
  {
    var a := DigitPrefix(s);
    var b := s[|a| + 1..];
    assert s == a + ['-'] + b;
    SplitTwo(a, '-', b);
  }

  /**
   * Lines 59-61 of the cleaning for one copy: a score that is not
   * digits-dash-digits is blanked, and row 0 is seeded with "0-0".
   */
  function Marked(c: Copy): (r: Option<string>)
    requires c.score.Some?
    ensures r.Some? ==> IsScore(r.value)
    ensures c.row == 0 ==> r == Some("0-0")
    ensures c.row != 0 ==> (r.Some? <==> IsScore(c.score.value)) && (r.Some? ==> r == c.score)
  {
    SeedIsScore();
    if c.row == 0 then Some("0-0") else if IsScore(c.score.value) then c.score else None
  }

  /** The score column after lines 59-61. */
  function MarkedScores(df: seq<Copy>): (r: seq<Option<string>>)
    requires forall c :: c in df ==> c.score.Some?
    ensures |r| == |df| && forall k :: 0 <= k < |df| ==> r[k] == Marked(df[k])
  {
    seq(|df|, k requires 0 <= k < |df| => Marked(df[k]))
  }

  /** pandas `ffill`: a missing cell takes the cell above it once that is filled. */
  function ForwardFill<T>(cells: seq<Option<T>>): (r: seq<Option<T>>)
    ensures |r| == |cells|
    ensures forall k :: 0 <= k < |cells| && cells[k].Some? ==> r[k] == cells[k]
    ensures |cells| > 0 && cells[0].Some? ==> forall k :: 0 <= k < |r| ==> r[k].Some?
  {
    if cells == [] then []
    else
      var init := ForwardFill(cells[..|cells| - 1]);
      var last := cells[|cells| - 1];
      init + [if last.Some? || init == [] then last else init[|init| - 1]]
  }

  /** Filling copies present cells only, so it keeps any property they all have. */
  lemma {:induction false} ForwardFillKeeps<T>(cells: seq<Option<T>>, P: T -> bool)
    requires forall k :: 0 <= k < |cells| && cells[k].Some? ==> P(cells[k].value)
    ensures forall k :: 0 <= k < |cells| && ForwardFill(cells)[k].Some? ==> P(ForwardFill(cells)[k].value)
    decreases |cells|
  {
    if cells != [] {
      var init := cells[..|cells| - 1];
      ForwardFillKeeps(init, P);
      assert ForwardFill(cells)[..|cells| - 1] == ForwardFill(init);
    }
  }

  /**
   * The filled cell at k is the nearest present cell at or above k, and it is
   * missing only when every cell up to k is.
   */
  lemma {:induction false} ForwardFillNearest<T>(cells: seq<Option<T>>, j: int, k: int)
    requires 0 <= j <= k < |cells|
    ensures ForwardFill(cells)[k].None? <==> forall m :: 0 <= m <= k ==> cells[m].None?
    ensures cells[j].Some? && (forall m :: j < m <= k ==> cells[m].None?) ==> ForwardFill(cells)[k] == cells[j]
    decreases |cells|
  {
    ForwardFillMissing(cells, k);
    if cells[j].Some? && (forall m :: j < m <= k ==> cells[m].None?) {
      ForwardFillFrom(cells, j, k);
    }
  }

  /** One step of the fill: earlier cells are those of the shorter column, the last one comes from above. */
  lemma ForwardFillStep<T>(cells: seq<Option<T>>)
    requires |cells| > 0
    ensures var f := ForwardFill(cells); var g := ForwardFill(cells[..|cells| - 1]);
      && (forall k :: 0 <= k < |g| ==> f[k] == g[k])
      && f[|cells| - 1] == (if cells[|cells| - 1].Some? || |g| == 0 then cells[|cells| - 1] else g[|g| - 1])
  {
  }

  lemma {:induction false} ForwardFillMissing<T>(cells: seq<Option<T>>, k: int)
    requires 0 <= k < |cells|
    ensures ForwardFill(cells)[k].None? <==> forall m :: 0 <= m <= k ==> cells[m].None?
    decreases |cells|
  {
    var n := |cells|;
    var init := cells[..n - 1];
    ForwardFillStep(cells);
    if k < n - 1 {
      ForwardFillMissing(init, k);
    } else if k > 0 {
      ForwardFillMissing(init, k - 1);
    }
  }

  lemma {:induction false} ForwardFillFrom<T>(cells: seq<Option<T>>, j: int, k: int)
    requires 0 <= j <= k < |cells|
    requires cells[j].Some? && forall m :: j < m <= k ==> cells[m].None?
    ensures ForwardFill(cells)[k] == cells[j]
    decreases |cells|
  {
    var n := |cells|;
    var init := cells[..n - 1];
    ForwardFillStep(cells);
    if k < n - 1 {
      ForwardFillFrom(init, j, k);
    } else if j < k {
      ForwardFillFrom(init, j, k - 1);
    }
  }

  /** A missing cell below the first takes the filled cell just above it. */
  lemma {:induction false} ForwardFillPrev<T>(cells: seq<Option<T>>, k: int)
    requires 0 < k < |cells| && cells[k].None?
    ensures ForwardFill(cells)[k] == ForwardFill(cells)[k - 1]
    decreases |cells|
  {
    var init := cells[..|cells| - 1];
    ForwardFillStep(cells);
    if k < |cells| - 1 {
      assert init[k] == cells[k];
      ForwardFillPrev(init, k);
    }
  }

  /** `str.match(r'\+\d+')`: a plus sign and a digit open the cell. */
  predicate PlusDigits(s: string)
  {
    |s| >= 2 && s[0] == '+' && IsDigit(s[1])
  }

  /**
   * Lines 65-66 for one points cell: 0 unless the cell opens with `+digits`;
   * such a cell goes through `int()`, which accepts it only when nothing but
   * whitespace follows the digits.
   */
  function Points(cell: Option<string>): (r: Result<nat, string>)
    ensures cell.None? || !PlusDigits(cell.value) ==> r == Success(0)
    ensures cell.Some? && |cell.value| > 1 && cell.value[0] == '+' && IsDigits(cell.value[1..]) ==>
              r == Success(NatValue(cell.value[1..]))
    ensures r.Failure? ==> cell.Some? && PlusDigits(cell.value)
  {
    match cell
    case None => Success(0)
    case Some(s) =>
      if !PlusDigits(s) then Success(0)
      else
        var d := DigitPrefix(s[1..]);
        if forall i :: 1 + |d| <= i < |s| ==> IsSpace(s[i]) then Success(NatValue(d))
        else Failure("ValueError: invalid literal for int()")
  }

  lemma PointsOfPlus(n: nat)
    ensures Points(Some("+" + Decimal(n))) == Success(n)
  {
    assert ("+" + Decimal(n))[1..] == Decimal(n);
    DecimalValue(n);
  }

  predicate AnyBadPoints(cs: seq<Copy>) { exists c :: c in cs && Points(c.points).Failure? }

  /** `df.points.astype(int)` over every copy: the first bad cell raises. */
  function PointsAll(cs: seq<Copy>): (r: Result<seq<nat>, string>)
    ensures r.Success? ==> |r.value| == |cs| && forall k :: 0 <= k < |cs| ==> Points(cs[k].points) == Success(r.value[k])
    ensures r.Failure? <==> AnyBadPoints(cs)
  {
    if cs == [] then Success([])
    else
      var p := Points(cs[0].points);
      if p.Failure? then Failure(p.error)
      else
        match PointsAll(cs[1..])
        case Failure(e) =>
          var c :| c in cs[1..] && Points(c.points).Failure?;
          assert c in cs;
          Failure(e)
        case Success(rest) => Success([p.value] + rest)
  }

  /** The cleaned play of copy k, once its time, score and points are known. */
  function Assemble(cs: seq<Copy>, scores: seq<Option<string>>, points: seq<nat>): (r: seq<Play>)
    requires |scores| == |cs| == |points|
    requires forall k :: 0 <= k < |cs| ==> cs[k].time.Some? && cs[k].event.Some? && scores[k].Some?
    ensures |r| == |cs|
    ensures forall k :: 0 <= k < |cs| ==>
              r[k] == Play(cs[k].row, cs[k].isHome, cs[k].city, cs[k].time.value, scores[k].value, cs[k].event.value, points[k])
  {
    seq(|cs|, k requires 0 <= k < |cs| =>
      Play(cs[k].row, cs[k].isHome, cs[k].city, cs[k].time.value, scores[k].value, cs[k].event.value, points[k]))
  }

  /**
   * `^\d+:\d+.\d+$`, with Python's backtracking: digits, a colon, digits, any
   * one character but a newline, digits.
   */
  predicate IsClock(t: string)
  {
    exists i, j | 0 < i < |t| && i + 1 < j < |t| - 1 ::
      IsDigits(t[..i]) && t[i] == ':' && IsDigits(t[i + 1..j]) && t[j] != '\n' && IsDigits(t[j + 1..])
  }

  /** `df[has_time]`: the plays whose time is a game clock, in their order. */
  function OnClock(ps: seq<Play>): (r: seq<Play>)
    ensures |r| <= |ps|
    ensures forall p :: p in r <==> p in ps && IsClock(p.time)
    ensures OrderedPlays(ps) ==> OrderedPlays(r)
  {
    if ps == [] then []
    else
      var rest := OnClock(ps[1..]);
      assert forall p :: p in ps <==> p == ps[0] || p in ps[1..];
      OrderedPlaysTail(ps);
      if IsClock(ps[0].time) then
        OrderedPlaysCons(ps, rest);
        [ps[0]] + rest
      else rest
  }

  lemma OrderedPlaysTail(ps: seq<Play>)
    requires ps != []
    ensures OrderedPlays(ps) ==> OrderedPlays(ps[1..])
  {
    if OrderedPlays(ps) {
      var t := ps[1..];
      forall j, k | 0 <= j < k < |t| ensures Pos(t[j].row, t[j].isHome) < Pos(t[k].row, t[k].isHome) {
        assert t[j] == ps[j + 1] && t[k] == ps[k + 1];
      }
    }
  }

  /** The first play comes before any kept later play. */
  lemma OrderedPlaysCons(ps: seq<Play>, rest: seq<Play>)
    requires ps != []
    requires forall p :: p in rest ==> p in ps[1..]
    requires OrderedPlays(ps) ==> OrderedPlays(rest)
    ensures OrderedPlays(ps) ==> OrderedPlays([ps[0]] + rest)
  {
    if OrderedPlays(ps) {
      var r := [ps[0]] + rest;
      forall j, k | 0 <= j < k < |r| ensures Pos(r[j].row, r[j].isHome) < Pos(r[k].row, r[k].isHome) {
        if j == 0 {
          assert r[k] in ps[1..];
          var i :| 0 <= i < |ps[1..]| && ps[1..][i] == r[k];
          assert ps[1..][i] == ps[i + 1];
        } else {
          assert r[j] == rest[j - 1] && r[k] == rest[k - 1];
        }
      }
    }
  }

  /** The `drop_duplicates` subset: time, score, event, points. */
  function Key(p: Play): (string, string, string, nat)
  {
    (p.time, p.score, p.event, p.points)
  }

  predicate UniqueKeys(ps: seq<Play>)
  {
    forall j, k :: 0 <= j < k < |ps| ==> Key(ps[j]) != Key(ps[k])
  }

  /** Some play of `ps` has the key of `p`. */
  predicate KeySeen(ps: seq<Play>, p: Play)
  {
    exists j :: 0 <= j < |ps| && Key(ps[j]) == Key(p)
  }

  /** `drop_duplicates(subset=[...])`, first occurrence kept. */
  function Dedupe(ps: seq<Play>): (r: seq<Play>)
    ensures |r| <= |ps|
    ensures forall k :: 0 <= k < |r| ==> r[k] in ps
    ensures UniqueKeys(r)
    ensures OrderedPlays(ps) ==> OrderedPlays(r)
  {
    if ps == [] then []
    else
      var init := ps[..|ps| - 1];
      var last := ps[|ps| - 1];
      var d := Dedupe(init);
      if KeySeen(init, last) then d
      else
        KeptAppend(ps, d);
        d + [last]
  }

  /** Appending the last play to survivors of the earlier ones keeps keys unique and order intact. */
  lemma KeptAppend(ps: seq<Play>, d: seq<Play>)
    requires |ps| > 0 && !KeySeen(ps[..|ps| - 1], ps[|ps| - 1])
    requires forall k :: 0 <= k < |d| ==> d[k] in ps[..|ps| - 1]
    requires UniqueKeys(d)
    ensures UniqueKeys(d + [ps[|ps| - 1]])
    ensures OrderedPlays(ps) && OrderedPlays(d) ==> OrderedPlays(d + [ps[|ps| - 1]])
  {
    var init := ps[..|ps| - 1];
    var last := ps[|ps| - 1];
    var e := d + [last];
    forall j, k | 0 <= j < k < |e| ensures Key(e[j]) != Key(e[k]) {
      assert e[j] == d[j];
      if k == |d| {
        assert e[k] == last;
        var i :| 0 <= i < |init| && init[i] == d[j];
        assert Key(init[i]) != Key(last);
      } else {
        assert e[k] == d[k];
      }
    }
    if OrderedPlays(ps) && OrderedPlays(d) {
      forall j, k | 0 <= j < k < |e| ensures Pos(e[j].row, e[j].isHome) < Pos(e[k].row, e[k].isHome) {
        assert e[j] == d[j];
        if k == |d| {
          assert e[k] == last;
          var i :| 0 <= i < |init| && init[i] == d[j];
          assert ps[i] == d[j];
        } else {
          assert e[k] == d[k];
        }
      }
    }
  }

  /** A play survives de-duplication exactly when no earlier play has its key. */
  lemma {:induction false} DedupeKeepsFirst(ps: seq<Play>, k: int)
    requires OrderedPlays(ps)
    requires 0 <= k < |ps|
    ensures ps[k] in Dedupe(ps) <==> !KeySeen(ps[..k], ps[k])
    decreases |ps|, 1
  {
    if k < |ps| - 1 {
      KeptBeforeLast(ps, k);
    } else {
      KeptLast(ps);
      assert ps[..k] == ps[..|ps| - 1];
    }
  }

  /** A play before the last survives exactly when no earlier play has its key. */
  lemma {:induction false} KeptBeforeLast(ps: seq<Play>, k: int)
    requires OrderedPlays(ps)
    requires 0 <= k < |ps| - 1
    ensures ps[k] in Dedupe(ps) <==> !KeySeen(ps[..k], ps[k])
    decreases |ps|, 0
  {
    var init := ps[..|ps| - 1];
    assert ps[k] in Dedupe(ps) <==> ps[k] in Dedupe(init) by { KeptEarlier(ps, k); }
    assert ps[k] in Dedupe(init) <==> !KeySeen(ps[..k], ps[k]) by {
      OrderedInit(ps);
      DedupeKeepsFirst(init, k);
      assert init[k] == ps[k] && init[..k] == ps[..k];
    }
  }

  /** An earlier play survives the whole column exactly when it survives the column without the last play. */
  lemma KeptEarlier(ps: seq<Play>, k: int)
    requires OrderedPlays(ps) && 0 <= k < |ps| - 1
    ensures ps[k] in Dedupe(ps) <==> ps[k] in Dedupe(ps[..|ps| - 1])
  {
    DedupeStep(ps);
    assert Pos(ps[k].row, ps[k].isHome) < Pos(ps[|ps| - 1].row, ps[|ps| - 1].isHome);
  }

  /** The last play survives exactly when no earlier play has its key. */
  lemma KeptLast(ps: seq<Play>)
    requires OrderedPlays(ps) && |ps| > 0
    ensures ps[|ps| - 1] in Dedupe(ps) <==> !KeySeen(ps[..|ps| - 1], ps[|ps| - 1])
  {
    DedupeStep(ps);
    LastNotKept(ps);
  }

  /** One step of `Dedupe`: the last play is appended unless an earlier one has its key. */
  lemma DedupeStep(ps: seq<Play>)
    requires |ps| > 0
    ensures var init := ps[..|ps| - 1]; var last := ps[|ps| - 1];
      Dedupe(ps) == if KeySeen(init, last) then Dedupe(init) else Dedupe(init) + [last]
  {
  }

  lemma OrderedInit(ps: seq<Play>)
    requires OrderedPlays(ps) && |ps| > 0
    ensures OrderedPlays(ps[..|ps| - 1])
  {
  }

  /** In an ordered column the last play is not among the survivors of the earlier ones. */
  lemma LastNotKept(ps: seq<Play>)
    requires OrderedPlays(ps) && |ps| > 0
    ensures ps[|ps| - 1] !in Dedupe(ps[..|ps| - 1])
  {
    var init := ps[..|ps| - 1];
    var last := ps[|ps| - 1];
    var d := Dedupe(init);
    forall m | 0 <= m < |d| ensures d[m] != last {
      var j :| 0 <= j < |init| && init[j] == d[m];
      assert Pos(ps[j].row, ps[j].isHome) < Pos(last.row, last.isHome);
    }
  }

  /** A copy with an event exists for source row i. */
  predicate HasEvent(row: SourceRow)
  {
    row.awayEvent.Some? || row.homeEvent.Some?
  }

  /**
   * When the cleaning raises: a column the `.str` accessor is used on holds
   * no text, a row with an event but no score (`~` on a missing match), a
   * `+digits` points cell `int()` refuses, a row with an event but no time
   * (a missing value in the boolean mask), or no copy of row 0 left, so that
   * seeding "0-0" appends a row without a time.
   */
  predicate Raises(rows: seq<SourceRow>)
  {
    NoTextColumn(rows) || ScoreMissing(rows) || BadPoints(rows) || TimeMissing(rows) || rows == [] || !HasEvent(rows[0])
  }

  /**
   * The score column holds no text, so `read_html` gives it a numeric dtype
   * and `score.str.match` (line 58) raises AttributeError.
   */
  predicate ScoresNumeric(rows: seq<SourceRow>)
  {
    forall i :: 0 <= i < |rows| ==> NoText(rows[i].score)
  }

  /**
   * Neither points column holds text, so both are numeric, and so is their
   * concatenation: `points.str.match` (line 65) raises AttributeError. One
   * column with text makes the concatenation an object column.
   */
  predicate PointsNumeric(rows: seq<SourceRow>)
  {
    forall i :: 0 <= i < |rows| ==> NoText(rows[i].awayPoints) && NoText(rows[i].homePoints)
  }

  /** The time column holds no text, so `time.str.match` (line 69) raises AttributeError. */
  predicate TimesNumeric(rows: seq<SourceRow>)
  {
    forall i :: 0 <= i < |rows| ==> NoText(rows[i].time)
  }

  /** Some column the cleaning reads through `.str` has a numeric dtype. */
  predicate NoTextColumn(rows: seq<SourceRow>)
  {
    ScoresNumeric(rows) || PointsNumeric(rows) || TimesNumeric(rows)
  }

  predicate ScoreMissing(rows: seq<SourceRow>)
  {
    exists i :: 0 <= i < |rows| && HasEvent(rows[i]) && rows[i].score.None?
  }

  predicate BadPoints(rows: seq<SourceRow>)
  {
    exists i, h :: 0 <= i < |rows| && EventCell(rows[i], h).Some? && Points(PointsCell(rows[i], h)).Failure?
  }

  predicate TimeMissing(rows: seq<SourceRow>)
  {
    exists i :: 0 <= i < |rows| && HasEvent(rows[i]) && rows[i].time.None?
  }

  predicate AnyScoreMissing(cs: seq<Copy>) { exists c :: c in cs && c.score.None? }

  predicate AnyTimeMissing(cs: seq<Copy>) { exists c :: c in cs && c.time.None? }

  predicate HasRowZero(cs: seq<Copy>) { exists c :: c in cs && c.row == 0 }

  /**
   * A source row the score column is filled from: one with an event, and
   * with a well-formed score or, for row 0, the seeded "0-0".
   */
  predicate ScoreSource(rows: seq<SourceRow>, j: nat)
    requires j < |rows|
  {
    HasEvent(rows[j]) && (j == 0 || (rows[j].score.Some? && IsScore(rows[j].score.value)))
  }

  /** The score a score source passes on. */
  function SourceScore(rows: seq<SourceRow>, j: nat): (r: string)
    requires j < |rows| && ScoreSource(rows, j)
    ensures IsScore(r)
  {
    SeedIsScore();
    if j == 0 then "0-0" else rows[j].score.value
  }

  /**
   * The score filled down to row i from above: that of the nearest earlier
   * score source, "0-0" when there is none.
   */
  function ScoreBefore(rows: seq<SourceRow>, i: nat): (r: string)
    requires i <= |rows|
    ensures IsScore(r)
  {
    SeedIsScore();
    if i == 0 then "0-0"
    else if ScoreSource(rows, i - 1) then SourceScore(rows, i - 1)
    else ScoreBefore(rows, i - 1)
  }

  /**
   * The score a play of row i carries after lines 59-62: "0-0" on row 0,
   * the row's own score when it is well formed, and otherwise the score of
   * the nearest earlier score source.
   */
  function ScoreAt(rows: seq<SourceRow>, i: nat): (r: string)
    requires i < |rows|
    ensures IsScore(r)
  {
    SeedIsScore();
    if i == 0 then "0-0"
    else if rows[i].score.Some? && IsScore(rows[i].score.value) then rows[i].score.value
    else ScoreBefore(rows, i)
  }

  /** The score filled down to row i is that of the nearest score source above it. */
  lemma {:induction false} ScoreBeforeNearest(rows: seq<SourceRow>, j: nat, i: nat)
    requires j < i <= |rows| && ScoreSource(rows, j)
    requires forall m :: j < m < i ==> !ScoreSource(rows, m)
    ensures ScoreBefore(rows, i) == SourceScore(rows, j)
    decreases i
  {
    if i - 1 > j {
      ScoreBeforeNearest(rows, j, i - 1);
    }
  }

  /** What a cleaned play owes to the source row its row names. */
  predicate FromSource(rows: seq<SourceRow>, away: string, home: string, p: Play)
  {
    p.row < |rows| &&
    var row := rows[p.row];
    p.city == (if p.isHome then home else away) &&
    Some(p.event) == EventCell(row, p.isHome) &&
    Some(p.time) == row.time && IsClock(p.time) &&
    Points(PointsCell(row, p.isHome)) == Success(p.points) &&
    IsScore(p.score) && p.score == ScoreAt(rows, p.row)
  }

  /** The copies that reach the score cleaning: split, then those with an event. */
  function Copies(rows: seq<SourceRow>, away: string, home: string): (r: seq<Copy>)
    ensures OrderedCopies(r)
    ensures forall c :: c in r ==> c.event.Some?
  {
    WithEvent(SplitRows(rows, away, home))
  }

  /** The away (false) or home (true) half of source row i. */
  function Half(rows: seq<SourceRow>, i: nat, isHome: bool, away: string, home: string): Copy
    requires i < |rows|
  {
    if isHome then HomeCopy(rows, i, home) else AwayCopy(rows, i, away)
  }

  /** The points cell a copy carries: the away or the home one of its row. */
  function PointsCell(row: SourceRow, isHome: bool): Option<string>
  {
    if isHome then row.homePoints else row.awayPoints
  }

  function EventCell(row: SourceRow, isHome: bool): Option<string>
  {
    if isHome then row.homeEvent else row.awayEvent
  }

  /** Every copy with an event is one half of the source row its label names... */
  lemma CopyOf(rows: seq<SourceRow>, away: string, home: string, c: Copy)
    requires c in Copies(rows, away, home)
    ensures c.row < |rows| && c == Half(rows, c.row, c.isHome, away, home)
    ensures EventCell(rows[c.row], c.isHome).Some?
  {
    CopyOrigin(rows, away, home, c);
  }

  /** ... and every event of the source has its copy. */
  lemma HalfIn(rows: seq<SourceRow>, away: string, home: string, i: nat, isHome: bool)
    requires i < |rows| && EventCell(rows[i], isHome).Some?
    ensures Half(rows, i, isHome, away, home) in Copies(rows, away, home)
  {
    var split := SplitRows(rows, away, home);
    if isHome {
      assert split[2 * i + 1] == HomeCopy(rows, i, home);
    } else {
      assert split[2 * i] == AwayCopy(rows, i, away);
    }
  }

  lemma MissingScoreIff(rows: seq<SourceRow>, away: string, home: string)
    ensures AnyScoreMissing(Copies(rows, away, home)) <==> ScoreMissing(rows)
  {
    if exists c :: c in Copies(rows, away, home) && c.score.None? {
      var c :| c in Copies(rows, away, home) && c.score.None?;
      assert c.row < |rows| && c == Half(rows, c.row, c.isHome, away, home) && EventCell(rows[c.row], c.isHome).Some? by {
        CopyOf(rows, away, home, c);
      }
      HalfCells(rows, c.row, c.isHome, away, home);
      assert HasEvent(rows[c.row]) && rows[c.row].score.None?;
    }
    if exists i :: 0 <= i < |rows| && HasEvent(rows[i]) && rows[i].score.None? {
      var i :| 0 <= i < |rows| && HasEvent(rows[i]) && rows[i].score.None?;
      var h := rows[i].awayEvent.None?;
      HalfIn(rows, away, home, i, h);
      HalfCells(rows, i, h, away, home);
      assert Half(rows, i, h, away, home).score.None?;
    }
  }

  lemma BadPointsIff(rows: seq<SourceRow>, away: string, home: string)
    ensures AnyBadPoints(Copies(rows, away, home)) <==> BadPoints(rows)
  {
    if exists c :: c in Copies(rows, away, home) && Points(c.points).Failure? {
      var c :| c in Copies(rows, away, home) && Points(c.points).Failure?;
      CopyOf(rows, away, home, c);
      assert Points(PointsCell(rows[c.row], c.isHome)).Failure?;
    }
    if exists i, h :: 0 <= i < |rows| && EventCell(rows[i], h).Some? && Points(PointsCell(rows[i], h)).Failure? {
      var i, h :| 0 <= i < |rows| && EventCell(rows[i], h).Some? && Points(PointsCell(rows[i], h)).Failure?;
      HalfIn(rows, away, home, i, h);
      assert Half(rows, i, h, away, home).points == PointsCell(rows[i], h);
    }
  }

  lemma MissingTimeIff(rows: seq<SourceRow>, away: string, home: string)
    ensures AnyTimeMissing(Copies(rows, away, home)) <==> TimeMissing(rows)
  {
    if exists c :: c in Copies(rows, away, home) && c.time.None? {
      var c :| c in Copies(rows, away, home) && c.time.None?;
      assert c.row < |rows| && c == Half(rows, c.row, c.isHome, away, home) && EventCell(rows[c.row], c.isHome).Some? by {
        CopyOf(rows, away, home, c);
      }
      HalfCells(rows, c.row, c.isHome, away, home);
      assert HasEvent(rows[c.row]) && rows[c.row].time.None?;
    }
    if exists i :: 0 <= i < |rows| && HasEvent(rows[i]) && rows[i].time.None? {
      var i :| 0 <= i < |rows| && HasEvent(rows[i]) && rows[i].time.None?;
      var h := rows[i].awayEvent.None?;
      HalfIn(rows, away, home, i, h);
      HalfCells(rows, i, h, away, home);
      assert Half(rows, i, h, away, home).time.None?;
    }
  }

  /** Row 0 keeps a copy exactly when it has an event, and that copy then comes first. */
  lemma RowZeroIff(rows: seq<SourceRow>, away: string, home: string)
    ensures HasRowZero(Copies(rows, away, home)) <==> rows != [] && HasEvent(rows[0])
    ensures rows != [] && HasEvent(rows[0]) ==> Copies(rows, away, home)[0].row == 0
  {
    var df := Copies(rows, away, home);
    if HasRowZero(df) {
      var c :| c in df && c.row == 0;
      CopyOf(rows, away, home, c);
      assert EventCell(rows[0], c.isHome).Some?;
    }
    if rows != [] && HasEvent(rows[0]) {
      var h := rows[0].awayEvent.None?;
      HalfIn(rows, away, home, 0, h);
      var c := Half(rows, 0, h, away, home);
      var k :| 0 <= k < |df| && df[k] == c;
      assert Pos(df[k].row, df[k].isHome) <= 1;
      assert Pos(df[0].row, df[0].isHome) <= Pos(df[k].row, df[k].isHome);
      assert c in df && c.row == 0;
    }
  }

  /** The filled score column once row 0 is seeded and every copy has a score. */
  lemma FilledScores(df: seq<Copy>)
    requires forall c :: c in df ==> c.score.Some?
    requires |df| > 0 && df[0].row == 0
    ensures var scores := ForwardFill(MarkedScores(df));
            forall k :: 0 <= k < |df| ==>
              scores[k].Some? && IsScore(scores[k].value) &&
              (df[k].row == 0 ==> scores[k] == Some("0-0")) &&
              (df[k].row != 0 && IsScore(df[k].score.value) ==> scores[k] == df[k].score)
  {
    var marked := MarkedScores(df);
    assert marked[0].Some?;
    ForwardFillKeeps(marked, IsScore);
  }

  /** A play built from a copy with a clock time owes its cells to the copy's source row. */
  lemma PlayFromSource(rows: seq<SourceRow>, away: string, home: string, c: Copy, score: string, points: nat)
    requires c in Copies(rows, away, home)
    requires c.time.Some? && IsClock(c.time.value) && c.score.Some?
    requires c.row < |rows| && score == ScoreAt(rows, c.row)
    requires Points(c.points) == Success(points)
    ensures FromSource(rows, away, home, Play(c.row, c.isHome, c.city, c.time.value, score, c.event.value, points))
  {
    assert c.row < |rows| && c == Half(rows, c.row, c.isHome, away, home) by { CopyOf(rows, away, home, c); }
    HalfCells(rows, c.row, c.isHome, away, home);
  }

  /** The cells a half carries are those of its row and side. */
  lemma HalfCells(rows: seq<SourceRow>, i: nat, isHome: bool, away: string, home: string)
    requires i < |rows|
    ensures var c := Half(rows, i, isHome, away, home);
      && c.row == i && c.isHome == isHome && c.city == (if isHome then home else away)
      && c.time == rows[i].time && c.score == rows[i].score
      && c.event == EventCell(rows[i], isHome) && c.points == PointsCell(rows[i], isHome)
  {
  }

  /** The assembled plays on a clock owe their cells to their source rows. */
  lemma AssembledFromSource(rows: seq<SourceRow>, away: string, home: string, df: seq<Copy>,
                             scores: seq<Option<string>>, points: seq<nat>)
    requires df == Copies(rows, away, home)
    requires !AnyScoreMissing(df) && HasRowZero(df) && !AnyTimeMissing(df)
    requires scores == ForwardFill(MarkedScores(df))
    requires PointsAll(df) == Success(points)
    requires |scores| == |df| == |points|
    requires forall k :: 0 <= k < |df| ==> df[k].time.Some? && df[k].event.Some? && scores[k].Some?
    ensures var plays := Assemble(df, scores, points);
            forall k :: 0 <= k < |plays| && IsClock(plays[k].time) ==> FromSource(rows, away, home, plays[k])
  {
    ScoresReady(rows, away, home, df, scores);
    var plays := Assemble(df, scores, points);
    forall k | 0 <= k < |plays| && IsClock(plays[k].time) ensures FromSource(rows, away, home, plays[k]) {
      assert df[k] in df;
      PlayFromSource(rows, away, home, df[k], scores[k].value, points[k]);
    }
  }

  /** The filled scores of the copies, cell by cell. */
  lemma ScoresReady(rows: seq<SourceRow>, away: string, home: string, df: seq<Copy>, scores: seq<Option<string>>)
    requires df == Copies(rows, away, home)
    requires !AnyScoreMissing(df) && HasRowZero(df)
    requires scores == ForwardFill(MarkedScores(df))
    ensures |scores| == |df|
    ensures forall k :: 0 <= k < |df| ==>
      && scores[k].Some? && IsScore(scores[k].value)
      && (df[k].row == 0 ==> scores[k].value == "0-0")
      && (df[k].row != 0 && IsScore(df[k].score.value) ==> scores[k].value == df[k].score.value)
      && df[k].row < |rows| && scores[k].value == ScoreAt(rows, df[k].row)
  {
    RowZeroIff(rows, away, home);
    FilledScores(df);
    CopiesAreCopiesOf(rows, away, home);
    forall k | 0 <= k < |df| ensures df[k].row < |rows| && scores[k].value == ScoreAt(rows, df[k].row) {
      ScoreAtCopy(rows, away, home, df, k);
    }
  }

  /** Copies sit in label order, so their indices compare as their places do. */
  lemma OrderedIndex(cs: seq<Copy>, i: nat, j: nat)
    requires OrderedCopies(cs) && i < |cs| && j < |cs|
    ensures i <= j <==> Pos(cs[i].row, cs[i].isHome) <= Pos(cs[j].row, cs[j].isHome)
  {
    if i < j {
      assert Pos(cs[i].row, cs[i].isHome) < Pos(cs[j].row, cs[j].isHome);
    } else if j < i {
      assert Pos(cs[j].row, cs[j].isHome) < Pos(cs[i].row, cs[i].isHome);
    }
  }

  /**
   * The copies of a page, as the score filling sees them: in label order,
   * each one half of its source row, and every event of the source kept.
   */
  ghost predicate CopiesOf(rows: seq<SourceRow>, away: string, home: string, df: seq<Copy>)
  {
    && OrderedCopies(df)
    && (forall c :: c in df ==>
          c.row < |rows| && c == Half(rows, c.row, c.isHome, away, home) && EventCell(rows[c.row], c.isHome).Some?)
    && (forall i: nat, h: bool :: i < |rows| && EventCell(rows[i], h).Some? ==> Half(rows, i, h, away, home) in df)
  }

  lemma CopiesAreCopiesOf(rows: seq<SourceRow>, away: string, home: string)
    ensures CopiesOf(rows, away, home, Copies(rows, away, home))
  {
    var df := Copies(rows, away, home);
    forall c | c in df
      ensures c.row < |rows| && c == Half(rows, c.row, c.isHome, away, home) && EventCell(rows[c.row], c.isHome).Some?
    {
      CopyOf(rows, away, home, c);
    }
    forall i: nat, h: bool | i < |rows| && EventCell(rows[i], h).Some? ensures Half(rows, i, h, away, home) in df {
      HalfIn(rows, away, home, i, h);
    }
  }

  /** No source row between the rows of two neighbouring copies has an event. */
  lemma NoEventBetween(rows: seq<SourceRow>, away: string, home: string, df: seq<Copy>, k: nat, m: nat)
    requires CopiesOf(rows, away, home, df)
    requires 0 < k < |df| && m < |rows| && df[k - 1].row < m < df[k].row
    ensures !HasEvent(rows[m])
  {
    assert forall h: bool :: EventCell(rows[m], h).Some? ==> Half(rows, m, h, away, home) in df;
    forall h: bool ensures Half(rows, m, h, away, home) !in df {
      HalfCells(rows, m, h, away, home);
      NoCopyBetween(df, k, Half(rows, m, h, away, home));
    }
    assert EventCell(rows[m], false) == rows[m].awayEvent && EventCell(rows[m], true) == rows[m].homeEvent;
  }

  /** No copy sits between two neighbours of an ordered sequence of copies. */
  lemma NoCopyBetween(cs: seq<Copy>, k: nat, c: Copy)
    requires OrderedCopies(cs) && 0 < k < |cs|
    requires Pos(cs[k - 1].row, cs[k - 1].isHome) < Pos(c.row, c.isHome) < Pos(cs[k].row, cs[k].isHome)
    ensures c !in cs
  {
    forall i | 0 <= i < |cs| ensures cs[i] != c {
      OrderedIndex(cs, i, k - 1);
      OrderedIndex(cs, k, i);
    }
  }

  /** Rows that are no score source pass the filled score down unchanged. */
  lemma {:induction false} ScoreBeforeSkip(rows: seq<SourceRow>, j: nat, i: nat)
    requires j < i <= |rows|
    requires forall m :: j < m < i ==> !ScoreSource(rows, m)
    ensures ScoreBefore(rows, i) == ScoreBefore(rows, j + 1)
    decreases i
  {
    if i - 1 > j {
      ScoreBeforeSkip(rows, j, i - 1);
    }
  }

  /**
   * A row whose own score is blanked carries the score of the nearest row
   * above it that has an event, when no row between them has one.
   */
  lemma ScoreCarried(rows: seq<SourceRow>, r': nat, r: nat)
    requires r' <= r < |rows| && r != 0 && HasEvent(rows[r'])
    requires !(rows[r].score.Some? && IsScore(rows[r].score.value))
    requires forall m :: r' < m < r ==> !HasEvent(rows[m])
    ensures ScoreAt(rows, r') == ScoreAt(rows, r)
  {
    if r' < r {
      ScoreBeforeSkip(rows, r', r);
    }
  }

  /** The score column after `ffill` holds, for every copy, the score of its row. */
  lemma {:induction false} ScoreAtCopy(rows: seq<SourceRow>, away: string, home: string, df: seq<Copy>, k: nat)
    requires CopiesOf(rows, away, home, df)
    requires (forall c :: c in df ==> c.score.Some?) && |df| > 0 && df[0].row == 0
    requires k < |df|
    ensures df[k].row < |rows|
    ensures ForwardFill(MarkedScores(df))[k] == Some(ScoreAt(rows, df[k].row))
    decreases k
  {
    if MarkedScores(df)[k].Some? {
      ScoreOwn(rows, away, home, df, k);
    } else {
      assert k > 0 by {
        assert MarkedScores(df)[0] == Marked(df[0]);
      }
      ScoreAtCopy(rows, away, home, df, k - 1);
      ScoreDown(rows, away, home, df, k);
    }
  }

  /** A copy whose score is kept, or seeded on row 0, holds the score of its row. */
  lemma ScoreOwn(rows: seq<SourceRow>, away: string, home: string, df: seq<Copy>, k: nat)
    requires CopiesOf(rows, away, home, df)
    requires (forall c :: c in df ==> c.score.Some?) && k < |df|
    requires MarkedScores(df)[k].Some?
    ensures df[k].row < |rows|
    ensures ForwardFill(MarkedScores(df))[k] == Some(ScoreAt(rows, df[k].row))
  {
    assert df[k] in df;
    HalfCells(rows, df[k].row, df[k].isHome, away, home);
    assert MarkedScores(df)[k] == Marked(df[k]);
  }

  /** A copy whose score is blanked holds the score filled into the copy above it. */
  lemma ScoreDown(rows: seq<SourceRow>, away: string, home: string, df: seq<Copy>, k: nat)
    requires CopiesOf(rows, away, home, df)
    requires (forall c :: c in df ==> c.score.Some?) && 0 < k < |df|
    requires MarkedScores(df)[k].None?
    requires df[k - 1].row < |rows| && ForwardFill(MarkedScores(df))[k - 1] == Some(ScoreAt(rows, df[k - 1].row))
    ensures df[k].row < |rows|
    ensures ForwardFill(MarkedScores(df))[k] == Some(ScoreAt(rows, df[k].row))
  {
    var marked := MarkedScores(df);
    var r, r' := df[k].row, df[k - 1].row;
    assert df[k] in df && df[k - 1] in df;
    HalfCells(rows, r, df[k].isHome, away, home);
    HalfCells(rows, r', df[k - 1].isHome, away, home);
    assert marked[k] == Marked(df[k]);
    ForwardFillPrev(marked, k);
    OrderedIndex(df, k - 1, k);
    forall m | r' < m < r ensures !HasEvent(rows[m]) {
      NoEventBetween(rows, away, home, df, k, m);
    }
    ScoreCarried(rows, r', r);
  }

  /** Assembling keeps the order of the copies. */
  lemma AssembledOrdered(df: seq<Copy>, scores: seq<Option<string>>, points: seq<nat>)
    requires OrderedCopies(df)
    requires |scores| == |df| == |points|
    requires forall k :: 0 <= k < |df| ==> df[k].time.Some? && df[k].event.Some? && scores[k].Some?
    ensures OrderedPlays(Assemble(df, scores, points))
  {
    var plays := Assemble(df, scores, points);
    forall j, k | 0 <= j < k < |plays| ensures Pos(plays[j].row, plays[j].isHome) < Pos(plays[k].row, plays[k].isHome) {
      assert Pos(df[j].row, df[j].isHome) < Pos(df[k].row, df[k].isHome);
    }
  }

  /**
   * Every column read through `.str` holds text and none of the four
   * failure conditions holds on the copies, so the source does not raise.
   */
  lemma NotRaises(rows: seq<SourceRow>, away: string, home: string)
    requires !NoTextColumn(rows)
    requires !AnyScoreMissing(Copies(rows, away, home)) && !AnyBadPoints(Copies(rows, away, home))
    requires !AnyTimeMissing(Copies(rows, away, home)) && HasRowZero(Copies(rows, away, home))
    ensures !Raises(rows)
  {
    MissingScoreIff(rows, away, home);
    BadPointsIff(rows, away, home);
    MissingTimeIff(rows, away, home);
    RowZeroIff(rows, away, home);
  }

  /**
   * What the cleaning promises of its plays: source order, no two plays
   * with one key, and each play owing its cells to its source row.
   */
  predicate Cleaned(rows: seq<SourceRow>, away: string, home: string, plays: seq<Play>)
  {
    OrderedPlays(plays) && UniqueKeys(plays) &&
    forall p :: p in plays ==> FromSource(rows, away, home, p)
  }

  /** Filtering on the clock and de-duplicating keep provenance and order, and leave keys unique. */
  lemma KeptPlays(rows: seq<SourceRow>, away: string, home: string, plays: seq<Play>)
    requires OrderedPlays(plays)
    requires forall k :: 0 <= k < |plays| && IsClock(plays[k].time) ==> FromSource(rows, away, home, plays[k])
    ensures Cleaned(rows, away, home, Dedupe(OnClock(plays)))
  {
    var kept := OnClock(plays);
    forall p | p in Dedupe(kept) ensures FromSource(rows, away, home, p) {
      assert p in kept;
      var k :| 0 <= k < |plays| && plays[k] == p;
    }
  }

  /** When no failure condition holds, the source does not raise and the filled scores are all present. */
  lemma NoFailure(rows: seq<SourceRow>, away: string, home: string)
    requires !NoTextColumn(rows)
    requires !AnyScoreMissing(Copies(rows, away, home)) && !AnyBadPoints(Copies(rows, away, home))
    requires !AnyTimeMissing(Copies(rows, away, home)) && HasRowZero(Copies(rows, away, home))
    ensures !Raises(rows)
    ensures var df := Copies(rows, away, home);
            forall k :: 0 <= k < |df| ==> ForwardFill(MarkedScores(df))[k].Some? && df[k].time.Some? && df[k].event.Some?
  {
    NotRaises(rows, away, home);
    RowZeroIff(rows, away, home);
    FilledScores(Copies(rows, away, home));
  }

  /**
   * The cleaning shared by both scrapers: split and drop the copies without
   * an event (lines 41-56), blank malformed scores, seed row 0 and fill
   * (59-62), parse points (65-66), keep the plays on a clock (69-70) and
   * drop duplicates (73-75).
   */
  function Clean(rows: seq<SourceRow>, away: string, home: string): (r: Result<seq<Play>, string>)
  {
    var df := Copies(rows, away, home);
    if ScoresNumeric(rows) then Failure(NoStrAccessor)
    else if AnyScoreMissing(df) then Failure("TypeError: bad operand type for unary ~")
    else if PointsNumeric(rows) then Failure(NoStrAccessor)
    else
      var points := PointsAll(df);
      if points.Failure? then Failure(points.error)
      else if TimesNumeric(rows) then Failure(NoStrAccessor)
      else if AnyTimeMissing(df) || !HasRowZero(df) then Failure("ValueError: cannot mask with missing values")
      else Success(Dedupe(ClockPlays(rows, away, home)))
  }

  const NoStrAccessor := "AttributeError: Can only use .str accessor with string values!"

  /** The cleaning raises exactly in the `Raises` cases. */
  lemma CleanRaises(rows: seq<SourceRow>, away: string, home: string)
    ensures Clean(rows, away, home).Failure? <==> Raises(rows)
  {
    var df := Copies(rows, away, home);
    if NoTextColumn(rows) {
    } else if AnyScoreMissing(df) {
      MissingScoreIff(rows, away, home);
    } else if PointsAll(df).Failure? {
      BadPointsIff(rows, away, home);
    } else if AnyTimeMissing(df) || !HasRowZero(df) {
      MissingTimeIff(rows, away, home);
      RowZeroIff(rows, away, home);
    } else {
      NoFailure(rows, away, home);
    }
  }

  /** With no failure condition, the cleaning returns the de-duplicated plays on a clock. */
  lemma CleanSucceeds(rows: seq<SourceRow>, away: string, home: string)
    requires !NoTextColumn(rows)
    requires !AnyScoreMissing(Copies(rows, away, home)) && !AnyBadPoints(Copies(rows, away, home))
    requires !AnyTimeMissing(Copies(rows, away, home)) && HasRowZero(Copies(rows, away, home))
    ensures Clean(rows, away, home) == Success(Dedupe(ClockPlays(rows, away, home)))
  {
  }

  /** What the cleaning returns is `Cleaned`. */
  lemma CleanCleaned(rows: seq<SourceRow>, away: string, home: string)
    ensures Clean(rows, away, home).Success? ==> Cleaned(rows, away, home, Clean(rows, away, home).value)
  {
    var df := Copies(rows, away, home);
    if !NoTextColumn(rows) && !AnyScoreMissing(df) && PointsAll(df).Success? && !AnyTimeMissing(df) && HasRowZero(df) {
      NoFailure(rows, away, home);
      var scores := ForwardFill(MarkedScores(df));
      var points := PointsAll(df).value;
      AssembledFromSource(rows, away, home, df, scores, points);
      AssembledOrdered(df, scores, points);
      KeptPlays(rows, away, home, Assemble(df, scores, points));
    }
  }

  /** Plays sit in label order, so their indices compare as their places do. */
  lemma OrderedPlaysIndex(ps: seq<Play>, i: nat, j: nat)
    requires OrderedPlays(ps) && i < |ps| && j < |ps|
    ensures i <= j <==> Pos(ps[i].row, ps[i].isHome) <= Pos(ps[j].row, ps[j].isHome)
  {
    if i < j {
      assert Pos(ps[i].row, ps[i].isHome) < Pos(ps[j].row, ps[j].isHome);
    } else if j < i {
      assert Pos(ps[j].row, ps[j].isHome) < Pos(ps[i].row, ps[i].isHome);
    }
  }

  /** The play the cleaning makes of the event on side h of source row i. */
  function PlayOf(rows: seq<SourceRow>, away: string, home: string, i: nat, h: bool): Play
    requires i < |rows| && EventCell(rows[i], h).Some? && rows[i].time.Some?
    requires Points(PointsCell(rows[i], h)).Success?
  {
    Play(i, h, if h then home else away, rows[i].time.value, ScoreAt(rows, i),
         EventCell(rows[i], h).value, Points(PointsCell(rows[i], h)).value)
  }

  /** A play owing its cells to its source row is the play of its row and side, and only that one. */
  lemma FromSourceIsPlayOf(rows: seq<SourceRow>, away: string, home: string, p: Play)
    requires FromSource(rows, away, home, p)
    ensures EventCell(rows[p.row], p.isHome).Some? && rows[p.row].time.Some?
    ensures Points(PointsCell(rows[p.row], p.isHome)).Success?
    ensures p == PlayOf(rows, away, home, p.row, p.isHome)
  {
  }

  /** The play of every event with a clock time owes its cells to its source row. */
  lemma PlayOfFromSource(rows: seq<SourceRow>, away: string, home: string, i: nat, h: bool)
    requires i < |rows| && EventCell(rows[i], h).Some? && rows[i].time.Some? && IsClock(rows[i].time.value)
    requires Points(PointsCell(rows[i], h)).Success?
    ensures FromSource(rows, away, home, PlayOf(rows, away, home, i, h))
  {
  }

  /** The plays on a clock before de-duplication, as the cleaning builds them. */
  function ClockPlays(rows: seq<SourceRow>, away: string, home: string): seq<Play>
    requires !AnyScoreMissing(Copies(rows, away, home)) && !AnyBadPoints(Copies(rows, away, home))
    requires !AnyTimeMissing(Copies(rows, away, home)) && HasRowZero(Copies(rows, away, home))
  {
    var df := Copies(rows, away, home);
    RowZeroIff(rows, away, home);
    FilledScores(df);
    OnClock(Assemble(df, ForwardFill(MarkedScores(df)), PointsAll(df).value))
  }

  /** Every play owing its cells to its source row is among the assembled plays on a clock. */
  lemma AssembledComplete(rows: seq<SourceRow>, away: string, home: string, df: seq<Copy>,
                          scores: seq<Option<string>>, points: seq<nat>, q: Play)
    requires CopiesOf(rows, away, home, df)
    requires |scores| == |df| == |points|
    requires forall k :: 0 <= k < |df| ==>
      && df[k].time.Some? && df[k].event.Some? && scores[k].Some?
      && df[k].row < |rows| && scores[k].value == ScoreAt(rows, df[k].row)
      && Points(df[k].points) == Success(points[k])
    requires FromSource(rows, away, home, q)
    ensures q in OnClock(Assemble(df, scores, points))
  {
    var c := Half(rows, q.row, q.isHome, away, home);
    HalfCells(rows, q.row, q.isHome, away, home);
    assert c in df;
    var m :| 0 <= m < |df| && df[m] == c;
    var plays := Assemble(df, scores, points);
    assert plays[m] == q;
  }

  /** Every assembled play on a clock owes its cells to its source row. */
  lemma AssembledSound(rows: seq<SourceRow>, away: string, home: string, df: seq<Copy>,
                       scores: seq<Option<string>>, points: seq<nat>, k: nat)
    requires CopiesOf(rows, away, home, df)
    requires |scores| == |df| == |points|
    requires forall k :: 0 <= k < |df| ==>
      && df[k].time.Some? && df[k].event.Some? && scores[k].Some?
      && df[k].row < |rows| && scores[k].value == ScoreAt(rows, df[k].row)
      && Points(df[k].points) == Success(points[k])
    requires k < |df| && IsClock(df[k].time.value)
    ensures FromSource(rows, away, home, Assemble(df, scores, points)[k])
  {
    assert df[k] in df;
    HalfCells(rows, df[k].row, df[k].isHome, away, home);
  }

  /** The assembled plays on a clock are exactly those owing their cells to their source rows. */
  lemma AssembledExact(rows: seq<SourceRow>, away: string, home: string, df: seq<Copy>,
                       scores: seq<Option<string>>, points: seq<nat>)
    requires CopiesOf(rows, away, home, df)
    requires |scores| == |df| == |points|
    requires forall k :: 0 <= k < |df| ==>
      && df[k].time.Some? && df[k].event.Some? && scores[k].Some?
      && df[k].row < |rows| && scores[k].value == ScoreAt(rows, df[k].row)
      && Points(df[k].points) == Success(points[k])
    ensures OrderedPlays(OnClock(Assemble(df, scores, points)))
    ensures forall q :: q in OnClock(Assemble(df, scores, points)) <==> FromSource(rows, away, home, q)
  {
    var plays := Assemble(df, scores, points);
    AssembledOrdered(df, scores, points);
    forall q | q in OnClock(plays) ensures FromSource(rows, away, home, q) {
      var k :| 0 <= k < |plays| && plays[k] == q;
      AssembledSound(rows, away, home, df, scores, points, k);
    }
    forall q | FromSource(rows, away, home, q) ensures q in OnClock(plays) {
      AssembledComplete(rows, away, home, df, scores, points, q);
    }
  }

  /**
   * The plays on a clock are in source order and are exactly the plays
   * that owe their cells to their source rows; the cleaning de-duplicates them.
   */
  lemma ClockPlaysExact(rows: seq<SourceRow>, away: string, home: string)
    requires Clean(rows, away, home).Success?
    ensures Clean(rows, away, home).value == Dedupe(ClockPlays(rows, away, home))
    ensures OrderedPlays(ClockPlays(rows, away, home))
    ensures forall q :: q in ClockPlays(rows, away, home) <==> FromSource(rows, away, home, q)
  {
    var df := Copies(rows, away, home);
    NoFailure(rows, away, home);
    var scores := ForwardFill(MarkedScores(df));
    var points := PointsAll(df).value;
    ScoresReady(rows, away, home, df, scores);
    CopiesAreCopiesOf(rows, away, home);
    AssembledExact(rows, away, home, df, scores, points);
  }

  /** Some earlier play owing its cells to its source row has the key of `p`. */
  ghost predicate KeyTakenBefore(rows: seq<SourceRow>, away: string, home: string, p: Play)
  {
    exists q :: FromSource(rows, away, home, q) && Pos(q.row, q.isHome) < Pos(p.row, p.isHome) && Key(q) == Key(p)
  }

  /** De-duplicating the plays of the source keeps a play exactly when no earlier one has its key. */
  lemma DedupeComplete(rows: seq<SourceRow>, away: string, home: string, kept: seq<Play>, p: Play)
    requires OrderedPlays(kept) && forall q :: q in kept <==> FromSource(rows, away, home, q)
    requires FromSource(rows, away, home, p)
    ensures p in Dedupe(kept) <==> !KeyTakenBefore(rows, away, home, p)
  {
    var k :| 0 <= k < |kept| && kept[k] == p;
    DedupeKeepsFirst(kept, k);
    if KeySeen(kept[..k], p) {
      var j :| 0 <= j < k && Key(kept[..k][j]) == Key(p);
      assert kept[..k][j] == kept[j] && kept[j] in kept;
      OrderedPlaysIndex(kept, k, j);
    }
    if KeyTakenBefore(rows, away, home, p) {
      var q :| FromSource(rows, away, home, q) && Pos(q.row, q.isHome) < Pos(p.row, p.isHome) && Key(q) == Key(p);
      var j :| 0 <= j < |kept| && kept[j] == q;
      OrderedPlaysIndex(kept, k, j);
      assert kept[..k][j] == q;
    }
  }

  /**
   * Completeness of the cleaning: every event with a clock time makes a
   * play owing its cells to its row, and that play is kept exactly when no
   * earlier such play has its key.
   */
  lemma CleanComplete(rows: seq<SourceRow>, away: string, home: string, i: nat, h: bool)
    requires Clean(rows, away, home).Success?
    requires i < |rows| && EventCell(rows[i], h).Some? && rows[i].time.Some? && IsClock(rows[i].time.value)
    ensures Points(PointsCell(rows[i], h)).Success?
    ensures FromSource(rows, away, home, PlayOf(rows, away, home, i, h))
    ensures PlayOf(rows, away, home, i, h) in Clean(rows, away, home).value
            <==> !KeyTakenBefore(rows, away, home, PlayOf(rows, away, home, i, h))
  {
    CleanRaises(rows, away, home);
    assert !BadPoints(rows);
    PlayOfFromSource(rows, away, home, i, h);
    ClockPlaysExact(rows, away, home);
    DedupeComplete(rows, away, home, ClockPlays(rows, away, home), PlayOf(rows, away, home, i, h));
  }
}
