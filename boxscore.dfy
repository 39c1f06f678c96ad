// The boxscore scraper of sportquery/nba/boxscore.py: one table per team
// and kind is read from the game's page, cleaned of its sentinel rows and
// cells, tagged with its team and side, joined into one frame with the
// line-score quarters, and brought to the fixed column set and types.
module Boxscore {
  import opened Wrappers
  import opened Text
  import opened Frames

  // ---------------------------------------------------------------------
  // Player names and sentinel cells

  /** A player name cleaned: `Team Totals` becomes `All`, then the name is folded to ASCII. */
  function CleanName(fold: char -> string, s: string): string
  {
    Translit(fold, Replace(s, "Team Totals", "All"))
  }

  /** The team-totals row is called `All`, whatever the transliteration table. */
  lemma TeamTotalsAll(fold: char -> string)
    ensures CleanName(fold, "Team Totals") == "All"
  {
    assert "Team Totals" + "" == "Team Totals";
    ReplaceWhole("Team Totals", "", "All");
    assert "All" + "" == "All";
    TranslitAscii(fold, "All");
  }

  /** An ASCII name that does not hold `Team Totals` is kept as it is. */
  lemma CleanNameKept(fold: char -> string, s: string)
    requires IsAscii(s) && forall i :: !OccursAt(s, "Team Totals", i)
    ensures CleanName(fold, s) == s
  {
    ReplaceAbsent(s, "Team Totals", "All");
    TranslitAscii(fold, s);
  }

  /**
   * The PLAYER rewrite on one cell; `unidecode` raises on a cell that is
   * not text.
   */
  function CleanPlayer(fold: char -> string, c: Cell): Result<Cell, string>
  {
    if c.Text? then Success(Text(CleanName(fold, c.text)))
    else Failure("AttributeError: unidecode needs a string")
  }

  /** `replace('Did Not Play', 'NaN')` on one cell. */
  function DidNotPlay(c: Cell): Cell
  {
    if c == Text("Did Not Play") then Text("NaN") else c
  }

  /** The three further sentinels of a player's line that become `'NaN'`. */
  predicate IsSentinel(s: string)
  {
    s == "Player Suspended" || s == "Did Not Dress" || s == "Not With Team"
  }

  /** The three-way `replace({...: 'NaN'})` on one cell. */
  function Scrub(c: Cell): (r: Cell)
    ensures c.Text? && IsSentinel(c.text) ==> r == Text("NaN")
    ensures !(c.Text? && IsSentinel(c.text)) ==> r == c
  {
    if c.Text? && IsSentinel(c.text) then Text("NaN") else c
  }

  /** The PLAYER cells of a frame, row by row. */
  function Players(f: Frame): (r: seq<Cell>)
    ensures |r| == |f.rows|
  {
    seq(|f.rows|, k requires 0 <= k < |f.rows| => Get(f.rows[k], "PLAYER"))
  }

  /** How many of `cells` are names that clean to `Reserves`. */
  function Reserves(fold: char -> string, cells: seq<Cell>): (n: nat)
    ensures n <= |cells|
  {
    if cells == [] then 0
    else (if cells[0].Text? && CleanName(fold, cells[0].text) == "Reserves" then 1 else 0) + Reserves(fold, cells[1..])
  }

  lemma {:induction false} CountReserves(fold: char -> string, rows: seq<Row>, cells: seq<Cell>)
    requires |rows| == |cells|
    requires forall k :: 0 <= k < |rows| ==> cells[k].Text? && Get(rows[k], "PLAYER") == Text(CleanName(fold, cells[k].text))
    ensures Count(rows, "PLAYER", Text("Reserves")) == Reserves(fold, cells)
  {
    if rows != [] {
      assert forall k :: 0 <= k < |rows| - 1 ==> rows[1..][k] == rows[k + 1] && cells[1..][k] == cells[k + 1];
      CountReserves(fold, rows[1..], cells[1..]);
    }
  }

  /** The table with its `Starters` column called PLAYER. */
  function Renamed(table: Frame): Frame
  {
    Rename(table, "Starters", "PLAYER")
  }

  function Cleaner(fold: char -> string): Cell -> Result<Cell, string>
  {
    c => CleanPlayer(fold, c)
  }

  /** The PLAYER rewrite fails exactly on a missing column or a name that is not text. */
  lemma CleanedPlayers(df: Frame, fold: char -> string)
    ensures MapColumn(df, "PLAYER", Cleaner(fold)).Failure? <==>
      "PLAYER" !in df.columns || exists k :: 0 <= k < |df.rows| && !Players(df)[k].Text?
    ensures MapColumn(df, "PLAYER", Cleaner(fold)).Success? ==> CleanedFrom(fold, df, MapColumn(df, "PLAYER", Cleaner(fold)).value)
  {
    var players := Players(df);
    assert forall k :: 0 <= k < |df.rows| ==> players[k] == Get(df.rows[k], "PLAYER");
  }

  /** `named` is `df` with every PLAYER cell a text name, cleaned. */
  predicate CleanedFrom(fold: char -> string, df: Frame, named: Frame)
  {
    named.columns == df.columns && "PLAYER" in df.columns && |named.rows| == |df.rows|
    && forall k :: 0 <= k < |df.rows| ==>
         Players(df)[k].Text? && Get(named.rows[k], "PLAYER") == Text(CleanName(fold, Players(df)[k].text))
  }

  /** After the filter and the replacement every PLAYER is a name other than `Reserves`, and no cell is `Did Not Play`. */
  lemma ParsedCells(named: Frame, kept: Frame, out: Frame)
    requires "PLAYER" in named.columns && forall k :: 0 <= k < |named.rows| ==> Get(named.rows[k], "PLAYER").Text?
    requires kept == Where(named, "PLAYER", Text("Reserves")) && out == ReplaceCells(kept, DidNotPlay)
    ensures forall k :: 0 <= k < |out.rows| ==> Get(out.rows[k], "PLAYER").Text? && Get(out.rows[k], "PLAYER") != Text("Reserves")
    ensures forall k, c :: 0 <= k < |out.rows| && c in out.columns ==> Get(out.rows[k], c) != Text("Did Not Play")
  {
    forall k | 0 <= k < |out.rows| ensures Get(out.rows[k], "PLAYER").Text? && Get(out.rows[k], "PLAYER") != Text("Reserves") {
      assert kept.rows[k] in named.rows;
    }
  }

  /** The team-totals row survives as `All`. */
  lemma ParsedTotals(fold: char -> string, df: Frame, named: Frame, kept: Frame, out: Frame)
    requires CleanedFrom(fold, df, named)
    requires kept == Where(named, "PLAYER", Text("Reserves")) && out == ReplaceCells(kept, DidNotPlay)
    requires Text("Team Totals") in Players(df)
    ensures exists k :: 0 <= k < |out.rows| && Get(out.rows[k], "PLAYER") == Text("All")
  {
    var players := Players(df);
    var k0 :| 0 <= k0 < |players| && players[k0] == Text("Team Totals");
    TeamTotalsAll(fold);
    assert Get(named.rows[k0], "PLAYER") == Text("All");
    assert named.rows[k0] in kept.rows;
    var j :| 0 <= j < |kept.rows| && kept.rows[j] == named.rows[k0];
    assert Get(out.rows[j], "PLAYER") == Text("All");
  }

  /**
   * Lines 70-78 as one value: the table with `Starters` renamed PLAYER and
   * every name cleaned, its `Reserves` rows filtered out in order, and its
   * `Did Not Play` cells replaced by `'NaN'`.
   */
  function Parsed(table: Frame, fold: char -> string): Result<Frame, string>
  {
    var named :- MapColumn(Renamed(table), "PLAYER", Cleaner(fold));
    Success(ReplaceCells(Where(named, "PLAYER", Text("Reserves")), DidNotPlay))
  }

  /**
   * `_parse_boxscore` after the table is read: `Starters` is renamed
   * PLAYER, each name is cleaned, `Reserves` header rows are removed and
   * `Did Not Play` cells become `'NaN'`. It fails exactly when there is no
   * PLAYER column or some name is not text.
   */
  method ParseBoxscore(table: Frame, fold: char -> string) returns (r: Result<Frame, string>)
    ensures r == Parsed(table, fold)
    ensures r.Failure? <==>
      "PLAYER" !in Renamed(table).columns || exists k :: 0 <= k < |table.rows| && !Players(Renamed(table))[k].Text?
    ensures r.Success? ==> r.value.columns == Renamed(table).columns
    ensures r.Success? ==> |r.value.rows| == |table.rows| - Reserves(fold, Players(Renamed(table)))
    ensures r.Success? ==> forall k :: 0 <= k < |r.value.rows| ==>
      Get(r.value.rows[k], "PLAYER").Text? && Get(r.value.rows[k], "PLAYER") != Text("Reserves")
    ensures r.Success? ==> forall k, c :: 0 <= k < |r.value.rows| && c in r.value.columns ==>
      Get(r.value.rows[k], c) != Text("Did Not Play")
    ensures (r.Success? && Text("Team Totals") in Players(Renamed(table))) ==>
      exists k :: 0 <= k < |r.value.rows| && Get(r.value.rows[k], "PLAYER") == Text("All")
  {
    var df := Renamed(table);
    var cleaned := MapColumn(df, "PLAYER", Cleaner(fold));
    CleanedPlayers(df, fold);
    if cleaned.Failure? {
      return Failure(cleaned.error);
    }
    var named := cleaned.value;
    CountReserves(fold, named.rows, Players(df));
    WithoutCount(named.rows, "PLAYER", Text("Reserves"));
    var kept := Where(named, "PLAYER", Text("Reserves"));
    var out := ReplaceCells(kept, DidNotPlay);
    ParsedCells(named, kept, out);
    if Text("Team Totals") in Players(df) {
      ParsedTotals(fold, df, named, kept, out);
    }
    return Success(out);
  }

  // ---------------------------------------------------------------------
  // Numbers

  function Pow10(n: nat): (r: nat)
    ensures r >= 1
  {
    if n == 0 then 1 else 10 * Pow10(n - 1)
  }

  /** The value of the numeral `a.b`. */
  function PointValue(a: string, b: string): real
    requires AllDigits(a) && AllDigits(b)
  {
    NatValue(a) as real + NatValue(b) as real / Pow10(|b|) as real
  }

  function Signed(negative: bool, x: real): real
  {
    if negative then 0.0 - x else x
  }

  /**
   * Python's `float(s)` on an optionally signed decimal numeral; None is
   * NaN, which `nan` in any case spells. Every other text makes `float`
   * raise.
   */
  function FloatOf(s: string): Result<Option<real>, string>
  {
    var negative := |s| > 0 && s[0] == '-';
    var body := if |s| > 0 && (s[0] == '-' || s[0] == '+') then s[1..] else s;
    if Lower(body) == "nan" then Success(None)
    else
      var parts := Split(body, '.');
      if |parts| == 1 && IsDigits(parts[0]) then Success(Some(Signed(negative, NatValue(parts[0]) as real)))
      else if |parts| == 2 && AllDigits(parts[0]) && AllDigits(parts[1]) && |parts[0]| + |parts[1]| > 0 then
        Success(Some(Signed(negative, PointValue(parts[0], parts[1]))))
      else Failure("ValueError: could not convert string to float: '" + s + "'")
  }

  /** A run of digits reads as the number it denotes. */
  lemma FloatOfDigits(s: string)
    requires IsDigits(s)
    ensures FloatOf(s) == Success(Some(NatValue(s) as real))
  {
    assert IsDigit(s[0]);
    assert Lower(s) != "nan" by {
      assert Lower(s)[0] == LowerChar(s[0]);
    }
    SplitNone(s, '.');
  }

  /** `float(str(n))` gives `n` back. */
  lemma FloatOfDecimal(n: nat)
    ensures FloatOf(Decimal(n)) == Success(Some(n as real))
  {
    DecimalValue(n);
    FloatOfDigits(Decimal(n));
  }

  /** `float('a.b')` is the value of the numeral. */
  lemma FloatOfPoint(a: string, b: string)
    requires IsDigits(a) && AllDigits(b)
    ensures FloatOf(a + "." + b) == Success(Some(PointValue(a, b)))
  {
    var s := a + "." + b;
    assert s[0] == a[0] && IsDigit(s[0]);
    assert Lower(s) != "nan" by {
      assert Lower(s)[0] == LowerChar(s[0]);
    }
    assert s == a + ['.'] + b;
    SplitTwo(a, '.', b);
  }

  /** The `'NaN'` the sentinels become reads as NaN. */
  lemma FloatOfNaN()
    ensures FloatOf("NaN") == Success(None)
  {
    assert Lower("NaN") == "nan";
  }

  /** Text that starts with a letter and is not `nan` is refused. */
  lemma FloatOfWord(s: string)
    requires |s| > 3 && ('A' <= s[0] <= 'Z' || 'a' <= s[0] <= 'z')
    ensures FloatOf(s).Failure?
  {
    assert |Lower(s)| != 3;
    var parts := Split(s, '.');
    assert parts[0][0] == s[0];
  }

  /**
   * Lines 155-158 on one MP cell: the text is split at `:`, the first
   * piece read as whole minutes and the second as seconds over 60, a
   * missing seconds piece counting 0. A cell that is not text, and a whole
   * piece that reads as NaN, give NaN; a piece `float` refuses raises.
   */
  function MinutesPlayed(c: Cell): (r: Result<Cell, string>)
    ensures r.Success? ==> r.value.Missing? || r.value.Number?
    ensures !c.Text? ==> r == Success(Missing)
  {
    if !c.Text? then Success(Missing) else MinutesOf(Split(c.text, ':'))
  }

  /** The minutes the pieces of an MP text between its colons denote. */
  function MinutesOf(parts: seq<string>): (r: Result<Cell, string>)
    requires |parts| >= 1
    ensures r.Success? ==> r.value.Missing? || r.value.Number?
  {
    var whole :- FloatOf(parts[0]);
    var partial :- if |parts| >= 2 then FloatOf(parts[1]) else Success(None);
    match whole
    case None => Success(Missing)
    case Some(w) => Success(Number(w + if partial.Some? then partial.value / 60.0 else 0.0))
  }

  /** Whole minutes and seconds that both read as numbers give minutes plus seconds over 60. */
  lemma MinutesOfPieces(a: string, b: string, x: real, y: real)
    requires FloatOf(a) == Success(Some(x)) && FloatOf(b) == Success(Some(y))
    ensures MinutesOf([a, b]) == Success(Number(x + y / 60.0))
  {
  }

  lemma ClockPieces(a: string, b: string)
    requires AllDigits(a) && AllDigits(b)
    ensures Split(a + ":" + b, ':') == [a, b]
  {
    assert a + ":" + b == a + [':'] + b;
    SplitTwo(a, ':', b);
  }

  /** Text of two numerals around a colon splits into the two numerals. */
  lemma MinutesSplit(a: string, b: string)
    requires IsDigits(a) && IsDigits(b)
    ensures MinutesPlayed(Text(a + ":" + b)) == MinutesOf([a, b])
  {
    ClockPieces(a, b);
  }

  /** Two numerals read as minutes plus seconds over 60. */
  lemma MinutesOfNumerals(a: string, b: string, m: nat, s: nat)
    requires IsDigits(a) && IsDigits(b) && NatValue(a) == m && NatValue(b) == s
    ensures MinutesOf([a, b]) == Success(Number(m as real + s as real / 60.0))
  {
    var x, y := m as real, s as real;
    FloatOfNumeral(a, m, x);
    FloatOfNumeral(b, s, y);
    MinutesOfPieces(a, b, x, y);
    assert x + y / 60.0 == m as real + s as real / 60.0;
  }

  lemma FloatOfNumeral(a: string, m: nat, x: real)
    requires IsDigits(a) && NatValue(a) == m && x == m as real
    ensures FloatOf(a) == Success(Some(x))
  {
    FloatOfDigits(a);
  }

  /** `M:SS` becomes M + SS/60. */
  lemma MinutesOfClock(m: nat, s: nat)
    requires s < 60
    ensures MinutesPlayed(Text(Decimal(m) + ":" + Pad(s, 2))) == Success(Number(m as real + s as real / 60.0))
  {
    var a := Decimal(m);
    var b := Pad(s, 2);
    DecimalValue(m);
    MinutesDigits(a, b, m, s);
  }

  /** Text of two numerals around a colon reads as minutes plus seconds over 60. */
  lemma MinutesDigits(a: string, b: string, m: nat, s: nat)
    requires IsDigits(a) && IsDigits(b) && NatValue(a) == m && NatValue(b) == s
    ensures MinutesPlayed(Text(a + ":" + b)) == Success(Number(m as real + s as real / 60.0))
  {
    MinutesSplit(a, b);
    MinutesOfNumerals(a, b, m, s);
  }

  /** Minutes with no seconds part count whole. */
  lemma MinutesWhole(m: nat)
    ensures MinutesPlayed(Text(Decimal(m))) == Success(Number(m as real))
  {
    SplitNone(Decimal(m), ':');
    FloatOfDecimal(m);
  }

  /** A sentinel, once made `'NaN'`, reads as NaN minutes. */
  lemma MinutesOfSentinel(s: string)
    requires IsSentinel(s)
    ensures MinutesPlayed(Scrub(Text(s))) == Success(Missing)
  {
    SplitNone("NaN", ':');
    FloatOfNaN();
  }

  /** A word without a colon is refused as minutes. */
  lemma MinutesOfWord(s: string)
    requires |s| > 3 && ('A' <= s[0] <= 'Z' || 'a' <= s[0] <= 'z')
    requires forall i :: 0 <= i < |s| ==> s[i] != ':'
    ensures MinutesPlayed(Text(s)).Failure?
  {
    SplitNone(s, ':');
    FloatOfWord(s);
  }

  /** Without the scrub, `float` refuses a sentinel and the conversion raises. */
  lemma MinutesRaiseOnSentinel(s: string)
    requires IsSentinel(s)
    ensures MinutesPlayed(Text(s)).Failure?
  {
    MinutesOfWord(s);
  }

  // ---------------------------------------------------------------------
  // Output schema and types

  /** The cell holds a value of the pandas type `kind` (a float column keeps NaN). */
  predicate OfKind(kind: Kind, c: Cell)
  {
    match kind
    case Str => c.Text? || c.Number?
    case Bool => c.Flag?
    case Float => c.Number? || c.Missing?
  }

  /**
   * `astype` on one cell. To str: NaN is `'nan'` and a flag `'True'` or
   * `'False'`. To bool: a cell's truth value, NaN being true. To float: a
   * flag is 1 or 0 and text is read by `float`, which may raise.
   */
  function Convert(kind: Kind, c: Cell): (r: Result<Cell, string>)
    ensures r.Success? ==> OfKind(kind, r.value)
    ensures r.Failure? <==> kind == Float && c.Text? && FloatOf(c.text).Failure?
    ensures OfKind(kind, c) ==> r == Success(c)
  {
    match kind
    case Str =>
      Success(match c
        case Missing => Text("nan")
        case Flag(b) => Text(if b then "True" else "False")
        case _ => c)
    case Bool =>
      Success(Flag(match c
        case Missing => true
        case Text(s) => s != ""
        case Flag(b) => b
        case Number(x) => x != 0.0))
    case Float =>
      match c
      case Text(s) =>
        var v :- FloatOf(s);
        Success(if v.Some? then Number(v.value) else Missing)
      case Flag(b) => Success(Number(if b then 1.0 else 0.0))
      case _ => Success(c)
  }

  /** The sentinels, once made `'NaN'`, become NaN in a float column. */
  lemma ConvertSentinel(s: string)
    requires IsSentinel(s) || s == "Did Not Play"
    ensures Convert(Float, Scrub(DidNotPlay(Text(s)))) == Success(Missing)
  {
    FloatOfNaN();
  }

  /** The identifying columns of `boxscore_dtypes`. */
  const IdKeys: seq<string> := ["GAME_ID", "TEAM", "IS_HOME", "PLAYER"]

  /** The basic box-score columns of `boxscore_dtypes`, in order. */
  const BasicKeys: seq<string> := [
    "MP", "FG", "FGA", "FG_PERC", "3P", "3PA", "3P_PERC", "FT", "FTA", "FT_PERC",
    "ORB", "DRB", "TRB", "AST", "STL", "BLK", "TOV", "PF", "PTS", "PLUS_MINUS"]

  /** The advanced box-score columns of `boxscore_dtypes`, in order. */
  const AdvancedKeys: seq<string> := [
    "TS_PERC", "EFG_PERC", "3PAR", "FTR", "ORB_PERC", "DRB_PERC", "TRB_PERC",
    "AST_PERC", "STL_PERC", "BLK_PERC", "TOV_PERC", "USG_PERC", "ORTG", "DRTG", "BPM"]

  const Quarters: seq<string> := ["PTS_Q1", "PTS_Q2", "PTS_Q3", "PTS_Q4"]

  /** The 43 output columns of `boxscore_dtypes`, in order. */
  const Keys: seq<string> := IdKeys + BasicKeys + AdvancedKeys + Quarters

  /** The type `boxscore_dtypes` gives a column: text for the ids and names, a flag for the side, float for the rest. */
  function KindOf(c: string): Kind
  {
    if c == "GAME_ID" || c == "TEAM" || c == "PLAYER" then Str
    else if c == "IS_HOME" then Bool
    else Float
  }

  const Kinds: map<string, Kind> := map c | c in Keys :: KindOf(c)

  /** The labels of the result: the keys, lower-cased. */
  const Output: seq<string> := seq(|Keys|, i requires 0 <= i < |Keys| => Lower(Keys[i]))

  /** No lower-case letter and no `%`. */
  predicate Plain(s: string)
  {
    forall j :: 0 <= j < |s| ==> s[j] != '%' && !('a' <= s[j] <= 'z')
  }

  lemma IdKeysPlain()
    ensures forall c :: c in IdKeys ==> Plain(c)
  {
  }

  lemma BasicKeysPlain()
    ensures forall c :: c in BasicKeys ==> Plain(c)
  {
    forall c | c in BasicKeys ensures Plain(c) {
      var i :| 0 <= i < |BasicKeys| && BasicKeys[i] == c;
      if i < 10 { PlainBelow(BasicKeys, 10); } else { PlainFrom(BasicKeys, 10); }
    }
  }

  lemma AdvancedKeysPlain()
    ensures forall c :: c in AdvancedKeys ==> Plain(c)
  {
    forall c | c in AdvancedKeys ensures Plain(c) {
      var i :| 0 <= i < |AdvancedKeys| && AdvancedKeys[i] == c;
      if i < 8 { PlainBelow(AdvancedKeys, 8); } else { PlainFrom(AdvancedKeys, 8); }
    }
  }

  lemma PlainBelow(keys: seq<string>, n: nat)
    requires (keys == BasicKeys && n == 10) || (keys == AdvancedKeys && n == 8)
    ensures forall i :: 0 <= i < n ==> Plain(keys[i])
  {
  }

  lemma PlainFrom(keys: seq<string>, n: nat)
    requires (keys == BasicKeys && n == 10) || (keys == AdvancedKeys && n == 8)
    ensures forall i :: n <= i < |keys| ==> Plain(keys[i])
  {
  }

  lemma QuartersPlain()
    ensures forall c :: c in Quarters ==> Plain(c)
  {
  }

  lemma KeysPlain()
    ensures forall c :: c in Keys ==> Plain(c)
  {
    IdKeysPlain();
    BasicKeysPlain();
    AdvancedKeysPlain();
    QuartersPlain();
  }

  /** Lower-casing tells apart names without lower-case letters. */
  lemma LowerInjective(a: string, b: string)
    requires Plain(a) && Plain(b) && Lower(a) == Lower(b)
    ensures a == b
  {
    assert |a| == |b|;
    forall j | 0 <= j < |a| ensures a[j] == b[j] {
      assert LowerChar(a[j]) == LowerChar(b[j]);
    }
  }

  /** Each key is the only one lower-cased to its output label. */
  lemma KeysAlone(c: string)
    requires c in Keys
    ensures Alone(Keys, Lower, c)
  {
    KeysPlain();
    forall d | d in Keys && Lower(d) == Lower(c) ensures d == c {
      LowerInjective(d, c);
    }
  }

  // ---------------------------------------------------------------------
  // Reading and joining the tables

  /**
   * `pd.read_html(text, attrs={'id': id})` reduced to the one table it
   * must find, with single-level labels; None where pandas finds no table.
   */
  type Reader = (string, string) -> Option<Frame>

  function Read(read: Reader, text: string, id: string): (r: Result<Frame, string>)
    ensures r.Success? <==> read(text, id).Some?
    ensures r.Success? ==> r.value == read(text, id).value
  {
    match read(text, id)
    case Some(f) => Success(f)
    case None => Failure("ValueError: No tables found matching id " + id)
  }

  const ScoringNames: seq<string> := ["TEAM", "PTS_Q1", "PTS_Q2", "PTS_Q3", "PTS_Q4"]

  /** The id of one team's table of one kind. */
  function TableId(team: string, kind: string): string
  {
    "box-" + team + "-game-" + kind
  }

  lemma ScoringNamesUnique()
    ensures forall i :: 0 <= i < |ScoringNames| ==> Unique(ScoringNames, i)
  {
  }

  /**
   * Lines 104-107: the first five columns of the line score's Scoring
   * group, named TEAM and PTS_Q1 to PTS_Q4, with PLAYER `All` inserted
   * second. Fewer than five columns make the renaming raise.
   */
  /** Lines 104-107 as one value. */
  function Scoring(line: Frame): Result<Frame, string>
  {
    var first :- Select(line, line.columns[..if |line.columns| < 5 then |line.columns| else 5]);
    var named :- SetColumns(first, ScoringNames);
    Insert(named, 1, "PLAYER", Text("All"))
  }

  method ScoringTable(line: Frame) returns (r: Result<Frame, string>)
    ensures r == Scoring(line)
    ensures r.Failure? <==> |line.columns| < 5
    ensures r.Success? ==> r.value.columns == ["TEAM", "PLAYER"] + Quarters && |r.value.rows| == |line.rows|
    ensures r.Success? ==> forall k :: 0 <= k < |line.rows| ==> Get(r.value.rows[k], "PLAYER") == Text("All")
    ensures r.Success? ==> forall k, i :: 0 <= k < |line.rows| && 0 <= i < 5 ==>
      Get(r.value.rows[k], ScoringNames[i]) == Get(line.rows[k], line.columns[i])
  {
    var width := if |line.columns| < 5 then |line.columns| else 5;
    var cols := line.columns[..width];
    assert forall i :: 0 <= i < |cols| ==> cols[i] in line.columns;
    var first := Select(line, cols);
    var named := SetColumns(first.value, ScoringNames);
    if named.Failure? {
      return Failure(named.error);
    }
    assert "PLAYER" !in ScoringNames;
    var scoring := Insert(named.value, 1, "PLAYER", Text("All"));
    ScoringCells(line, first.value, named.value, scoring.value);
    return scoring;
  }

  lemma ScoringCells(line: Frame, first: Frame, named: Frame, scoring: Frame)
    requires |line.columns| >= 5
    requires Select(line, line.columns[..5]) == Success(first)
    requires SetColumns(first, ScoringNames) == Success(named)
    requires Insert(named, 1, "PLAYER", Text("All")) == Success(scoring)
    ensures scoring.columns == ["TEAM", "PLAYER"] + Quarters && |scoring.rows| == |line.rows|
    ensures forall k, i :: 0 <= k < |line.rows| && 0 <= i < 5 ==>
      Get(scoring.rows[k], ScoringNames[i]) == Get(line.rows[k], line.columns[i])
  {
    ScoringNamesUnique();
    assert ScoringNames[..1] + ["PLAYER"] + ScoringNames[1..] == ["TEAM", "PLAYER"] + Quarters;
    forall k, i | 0 <= k < |line.rows| && 0 <= i < 5
      ensures Get(scoring.rows[k], ScoringNames[i]) == Get(line.rows[k], line.columns[i])
    {
      assert ScoringNames[i] != "PLAYER";
      assert first.columns[i] == line.columns[i];
    }
  }

  /** None of the quarter labels is among `cols`. */
  predicate NoQuarters(cols: seq<string>)
  {
    forall c :: c in Quarters ==> c !in cols
  }

  /** No table the reader finds in `text` has a column named after a quarter. */
  ghost predicate Unquartered(read: Reader, text: string)
  {
    forall id :: read(text, id).Some? ==> NoQuarters(read(text, id).value.columns)
  }

  /** The row is tagged as the home team's or the away team's. */
  predicate Sided(row: Row, away: string, home: string)
  {
    (Get(row, "TEAM") == Text(home) && Get(row, "IS_HOME") == Flag(true))
    || (Get(row, "TEAM") == Text(away) && Get(row, "IS_HOME") == Flag(false))
  }

  /** The row names a player, or the team's `All`, and is not a `Reserves` header. */
  predicate Named(row: Row)
  {
    Get(row, "PLAYER").Text? && Get(row, "PLAYER") != Text("Reserves")
  }

  /** A frame of one side's rows, led by its TEAM and IS_HOME columns. */
  predicate SideFrame(f: Frame, team: string, home: bool)
  {
    |f.columns| >= 2 && f.columns[0] == "TEAM" && f.columns[1] == "IS_HOME" && "PLAYER" in f.columns
    && forall k :: 0 <= k < |f.rows| ==>
         Get(f.rows[k], "TEAM") == Text(team) && Get(f.rows[k], "IS_HOME") == Flag(home) && Named(f.rows[k])
  }

  /** Renaming `Starters` brings in no quarter label. */
  lemma RenamedQuarters(table: Frame, cols: seq<string>)
    requires cols == Renamed(table).columns
    ensures NoQuarters(table.columns) ==> NoQuarters(["TEAM", "IS_HOME"] + cols)
  {
  }

  lemma SideFrameOf(parsed: Frame, team: string, home: bool, teamed: Frame, sided: Frame)
    requires "PLAYER" in parsed.columns && forall k :: 0 <= k < |parsed.rows| ==> Named(parsed.rows[k])
    requires Insert(parsed, 0, "TEAM", Text(team)) == Success(teamed)
    requires Insert(teamed, 1, "IS_HOME", Flag(home)) == Success(sided)
    ensures SideFrame(sided, team, home)
    ensures sided.columns == ["TEAM", "IS_HOME"] + parsed.columns
  {
  }

  /** Lines 111-118 as one value: one team's parsed table with TEAM and then IS_HOME inserted first. */
  function Side(read: Reader, text: string, fold: char -> string, team: string, home: bool, kind: string): Result<Frame, string>
  {
    var table :- Read(read, text, TableId(team, kind));
    var parsed :- Parsed(table, fold);
    Tag(parsed, team, home)
  }

  /** Lines 115-118: TEAM, then IS_HOME, inserted first. */
  function Tag(parsed: Frame, team: string, home: bool): Result<Frame, string>
  {
    var teamed :- Insert(parsed, 0, "TEAM", Text(team));
    Insert(teamed, 1, "IS_HOME", Flag(home))
  }

  /** The tags go in exactly when the frame has neither label, and lead the labels. */
  lemma TagFails(parsed: Frame, team: string, home: bool)
    ensures Tag(parsed, team, home).Failure? <==> "TEAM" in parsed.columns || "IS_HOME" in parsed.columns
    ensures Tag(parsed, team, home).Success? ==> Tag(parsed, team, home).value.columns == ["TEAM", "IS_HOME"] + parsed.columns
  {
    var teamed := Insert(parsed, 0, "TEAM", Text(team));
    if teamed.Success? {
      assert teamed.value.columns == ["TEAM"] + parsed.columns;
      assert "IS_HOME" in teamed.value.columns <==> "IS_HOME" in parsed.columns;
    }
  }

  /** A parsed table keeps the renamed labels. */
  lemma ParsedColumns(table: Frame, fold: char -> string)
    ensures Parsed(table, fold).Success? ==> Parsed(table, fold).value.columns == Renamed(table).columns
  {
  }

  /** The table can be parsed and has no TEAM or IS_HOME label of its own. */
  predicate SideReady(table: Frame, fold: char -> string)
  {
    Parsed(table, fold).Success? && "TEAM" !in Renamed(table).columns && "IS_HOME" !in Renamed(table).columns
  }

  /**
   * One team's table fails exactly when it is missing, cannot be parsed,
   * or already has a TEAM or IS_HOME label; otherwise its labels are TEAM,
   * IS_HOME and then the table's own, `Starters` called PLAYER.
   */
  lemma SideFails(read: Reader, text: string, fold: char -> string, team: string, home: bool, kind: string)
    ensures Side(read, text, fold, team, home, kind).Failure? <==>
      read(text, TableId(team, kind)).None? || !SideReady(read(text, TableId(team, kind)).value, fold)
    ensures Side(read, text, fold, team, home, kind).Success? ==>
      Side(read, text, fold, team, home, kind).value.columns == ["TEAM", "IS_HOME"] + Renamed(read(text, TableId(team, kind)).value).columns
  {
    if read(text, TableId(team, kind)).Some? {
      var table := read(text, TableId(team, kind)).value;
      ParsedColumns(table, fold);
      if Parsed(table, fold).Success? {
        TagFails(Parsed(table, fold).value, team, home);
      }
    }
  }

  /**
   * Lines 111-118 (and 125-132) for one team: its table of the given kind
   * is parsed, then its TEAM and IS_HOME columns are inserted first.
   */
  method SideTable(read: Reader, text: string, fold: char -> string, team: string, home: bool, kind: string)
    returns (r: Result<Frame, string>)
    ensures r == Side(read, text, fold, team, home, kind)
    ensures r.Success? ==> SideFrame(r.value, team, home)
    ensures r.Success? && Unquartered(read, text) ==> NoQuarters(r.value.columns)
  {
    var table :- Read(read, text, TableId(team, kind));
    var parsed :- ParseBoxscore(table, fold);
    var teamed :- Insert(parsed, 0, "TEAM", Text(team));
    var sided :- Insert(teamed, 1, "IS_HOME", Flag(home));
    assert Tag(parsed, team, home) == Success(sided);
    SideFrameOf(parsed, team, home, teamed, sided);
    RenamedQuarters(table, parsed.columns);
    return Success(sided);
  }


  /** A row of one of the two sides that names a player or the team's `All`. */
  predicate Tagged(row: Row, away: string, home: string)
  {
    Sided(row, away, home) && Named(row)
  }

  /** No label ends as `c` does once `suffix` is appended. */
  lemma EndsApart(c: string, suffix: string)
    requires |c| > 0 && |suffix| > 0 && c[|c| - 1] != suffix[|suffix| - 1]
    ensures forall d :: d + suffix != c
  {
  }

  lemma QuartersApart()
    ensures forall d, q :: q in Quarters ==> d + "_x" != q && d + "_y" != q
  {
    forall q | q in Quarters ensures forall d :: d + "_x" != q && d + "_y" != q {
      EndsApart(q, "_x");
      EndsApart(q, "_y");
    }
  }

  /** Both sides' rows, stacked, stay tagged. */
  lemma ConcatTagged(a: Frame, b: Frame, away: string, home: string)
    requires SideFrame(a, home, true) && SideFrame(b, away, false)
    ensures |Concat(a, b).columns| >= 2 && Concat(a, b).columns[0] == "TEAM" && Concat(a, b).columns[1] == "IS_HOME"
    ensures "PLAYER" in Concat(a, b).columns
    ensures forall k :: 0 <= k < |Concat(a, b).rows| ==> Tagged(Concat(a, b).rows[k], away, home)
  {
    var c := Concat(a, b);
    forall k | 0 <= k < |c.rows| ensures Tagged(c.rows[k], away, home) {
      assert "TEAM" in c.columns && "IS_HOME" in c.columns && "PLAYER" in c.columns;
      if k >= |a.rows| {
        assert Tagged(b.rows[k - |a.rows|], away, home);
      } else {
        assert Tagged(a.rows[k], away, home);
      }
    }
  }

  /** The inner merge takes its keys from the tagged left rows. */
  lemma InnerTagged(left: Frame, right: Frame, inner: Frame, away: string, home: string)
    requires forall k :: 0 <= k < |left.rows| ==> Tagged(left.rows[k], away, home)
    requires |left.columns| >= 2 && left.columns[1] == "IS_HOME"
    requires Merge(left, right, ["TEAM", "IS_HOME", "PLAYER"], Inner) == Success(inner)
    ensures "IS_HOME" in inner.columns
    ensures forall k :: 0 <= k < |inner.rows| ==> Tagged(inner.rows[k], away, home)
  {
    var on := ["TEAM", "IS_HOME", "PLAYER"];
    assert inner.columns[1] == Suffixed(left.columns[1], on, right.columns, "_x");
    forall k | 0 <= k < |inner.rows| ensures Tagged(inner.rows[k], away, home) {
      var x := inner.rows[k];
      InnerMergeMembers(left, right, on, x);
      var i, j :| Joins(left, right, on, x, i, j);
      CombineKey(left.columns, right.columns, on, left.rows[i], right.rows[j], "TEAM");
      CombineKey(left.columns, right.columns, on, left.rows[i], right.rows[j], "IS_HOME");
      CombineKey(left.columns, right.columns, on, left.rows[i], right.rows[j], "PLAYER");
    }
  }

  /** One row of the scoring merge keeps the tags of the left row it comes from. */
  lemma CombineTagged(left: seq<string>, right: seq<string>, l: Row, r: Row, away: string, home: string)
    requires Tagged(l, away, home) && "IS_HOME" in left
    requires right == ["TEAM", "PLAYER"] + Quarters
    ensures Tagged(Combine(left, right, ["TEAM", "PLAYER"], l, r), away, home)
  {
    var on := ["TEAM", "PLAYER"];
    CombineKey(left, right, on, l, r, "TEAM");
    CombineKey(left, right, on, l, r, "PLAYER");
    EndsApart("IS_HOME", "_x");
    CombineLeft(left, right, on, l, r, "IS_HOME");
  }

  /** The left merge with the scoring rows keeps every row tagged. */
  lemma LeftTagged(inner: Frame, scoring: Frame, box: Frame, away: string, home: string)
    requires forall k :: 0 <= k < |inner.rows| ==> Tagged(inner.rows[k], away, home)
    requires "IS_HOME" in inner.columns && scoring.columns == ["TEAM", "PLAYER"] + Quarters
    requires Merge(inner, scoring, ["TEAM", "PLAYER"], LeftJoin) == Success(box)
    ensures forall k :: 0 <= k < |box.rows| ==> Tagged(box.rows[k], away, home)
  {
    var on := ["TEAM", "PLAYER"];
    forall k | 0 <= k < |box.rows| ensures Tagged(box.rows[k], away, home) {
      var x := box.rows[k];
      LeftMergeMembers(inner, scoring, on, x);
      if exists i, j :: Joins(inner, scoring, on, x, i, j) {
        var i, j :| Joins(inner, scoring, on, x, i, j);
        CombineTagged(inner.columns, scoring.columns, inner.rows[i], scoring.rows[j], away, home);
      } else {
        var i :| 0 <= i < |inner.rows| && Unmatched(scoring.rows, on, inner.rows[i])
          && x == Combine(inner.columns, scoring.columns, on, inner.rows[i], map[]);
        CombineTagged(inner.columns, scoring.columns, inner.rows[i], map[], away, home);
      }
    }
  }

  /** A merge of frames without quarter labels has none. */
  lemma MergedNoQuarters(left: seq<string>, right: seq<string>, on: seq<string>)
    requires NoQuarters(left) && NoQuarters(right)
    ensures NoQuarters(MergedColumns(left, right, on))
  {
    QuartersApart();
  }

  /** The advanced rows, without MP and with BPM named, bring in no quarter label. */
  lemma AdvancedNoQuarters(stacked: Frame, all: Frame, adv: Frame)
    requires NoQuarters(stacked.columns)
    requires Drop(stacked, "MP") == Success(all)
    requires adv == Rename(all, "Unnamed: 16_level_1", "BPM")
    ensures NoQuarters(adv.columns)
  {
    forall q | q in Quarters ensures q !in adv.columns {
      assert q !in all.columns;
      assert forall i :: 0 <= i < |adv.columns| ==> adv.columns[i] != q;
    }
  }

  /** A padded row's quarter cells are NaN. */
  lemma QuarterPadded(left: seq<string>, right: seq<string>, l: Row, q: string)
    requires NoQuarters(left) && right == ["TEAM", "PLAYER"] + Quarters && q in Quarters
    ensures Get(Combine(left, right, ["TEAM", "PLAYER"], l, map[]), q) == Missing
  {
    QuartersApart();
    CombineRight(left, right, ["TEAM", "PLAYER"], l, map[], q);
  }

  /** A joined row's quarter cells are its scoring row's. */
  lemma QuarterJoined(left: seq<string>, right: seq<string>, l: Row, r: Row, q: string)
    requires NoQuarters(left) && right == ["TEAM", "PLAYER"] + Quarters && q in Quarters
    ensures Get(Combine(left, right, ["TEAM", "PLAYER"], l, r), q) == Get(r, q)
  {
    QuartersApart();
    CombineRight(left, right, ["TEAM", "PLAYER"], l, r, q);
  }

  /** A row other than an `All` row has no scoring partner, so its quarter cells are NaN. */
  lemma PlayerQuarters(inner: Frame, scoring: Frame, box: Frame, k: int, q: string)
    requires NoQuarters(inner.columns) && scoring.columns == ["TEAM", "PLAYER"] + Quarters
    requires forall j :: 0 <= j < |scoring.rows| ==> Get(scoring.rows[j], "PLAYER") == Text("All")
    requires Merge(inner, scoring, ["TEAM", "PLAYER"], LeftJoin) == Success(box)
    requires 0 <= k < |box.rows| && q in Quarters && Get(box.rows[k], "PLAYER") != Text("All")
    ensures Get(box.rows[k], q) == Missing
  {
    var on := ["TEAM", "PLAYER"];
    var x := box.rows[k];
    LeftMergeMembers(inner, scoring, on, x);
    if exists i, j :: Joins(inner, scoring, on, x, i, j) {
      var i, j :| Joins(inner, scoring, on, x, i, j);
      assert Get(inner.rows[i], on[1]) == Get(scoring.rows[j], on[1]);
      CombineKey(inner.columns, scoring.columns, on, inner.rows[i], scoring.rows[j], "PLAYER");
      assert false;
    } else {
      var i :| 0 <= i < |inner.rows| && Unmatched(scoring.rows, on, inner.rows[i])
        && x == Combine(inner.columns, scoring.columns, on, inner.rows[i], map[]);
      QuarterPadded(inner.columns, scoring.columns, inner.rows[i], q);
    }
  }

  /** A row whose keys are those of a scoring row is not a padded one. */
  lemma NotPadded(left: seq<string>, right: seq<string>, l: Row, r: Row, x: Row)
    requires Get(x, "TEAM") == Get(r, "TEAM") && Get(x, "PLAYER") == Get(r, "PLAYER")
    requires x == Combine(left, right, ["TEAM", "PLAYER"], l, map[])
    ensures Agree(l, r, ["TEAM", "PLAYER"])
  {
    CombineKey(left, right, ["TEAM", "PLAYER"], l, map[], "TEAM");
    CombineKey(left, right, ["TEAM", "PLAYER"], l, map[], "PLAYER");
  }

  /** A joined row whose team is that of scoring row `s` was joined with row `s`. */
  lemma JoinedWith(inner: Frame, scoring: Frame, x: Row, i: int, j: int, s: int)
    requires |scoring.rows| == 2 && Get(scoring.rows[0], "TEAM") != Get(scoring.rows[1], "TEAM")
    requires Joins(inner, scoring, ["TEAM", "PLAYER"], x, i, j)
    requires 0 <= s < 2 && Get(x, "TEAM") == Get(scoring.rows[s], "TEAM")
    ensures j == s
  {
    var on := ["TEAM", "PLAYER"];
    assert Get(inner.rows[i], on[0]) == Get(scoring.rows[j], on[0]);
    CombineKey(inner.columns, scoring.columns, on, inner.rows[i], scoring.rows[j], "TEAM");
  }

  /** The `All` row of a team takes the quarter cells of that team's scoring row. */
  lemma AllQuarters(inner: Frame, scoring: Frame, box: Frame, k: int, s: int, q: string)
    requires NoQuarters(inner.columns) && scoring.columns == ["TEAM", "PLAYER"] + Quarters
    requires |scoring.rows| == 2 && Get(scoring.rows[0], "TEAM") != Get(scoring.rows[1], "TEAM")
    requires forall j :: 0 <= j < |scoring.rows| ==> Get(scoring.rows[j], "PLAYER") == Text("All")
    requires Merge(inner, scoring, ["TEAM", "PLAYER"], LeftJoin) == Success(box)
    requires 0 <= k < |box.rows| && q in Quarters && Get(box.rows[k], "PLAYER") == Text("All")
    requires 0 <= s < 2 && Get(box.rows[k], "TEAM") == Get(scoring.rows[s], "TEAM")
    ensures Get(box.rows[k], q) == Get(scoring.rows[s], q)
  {
    var on := ["TEAM", "PLAYER"];
    var x := box.rows[k];
    LeftMergeMembers(inner, scoring, on, x);
    if exists i, j :: Joins(inner, scoring, on, x, i, j) {
      var i, j :| Joins(inner, scoring, on, x, i, j);
      JoinedWith(inner, scoring, x, i, j, s);
      QuarterJoined(inner.columns, scoring.columns, inner.rows[i], scoring.rows[j], q);
    } else {
      var i :| 0 <= i < |inner.rows| && Unmatched(scoring.rows, on, inner.rows[i])
        && x == Combine(inner.columns, scoring.columns, on, inner.rows[i], map[]);
      NotPadded(inner.columns, scoring.columns, inner.rows[i], scoring.rows[s], x);
      assert false;
    }
  }

  /** The line score has the five scoring columns and two rows, away first, whose TEAM cells name the teams. */
  predicate LineTeams(line: Option<Frame>, away: string, home: string)
  {
    line.Some? && |line.value.columns| >= 5 && |line.value.rows| == 2
    && Get(line.value.rows[0], line.value.columns[0]) == Text(away)
    && Get(line.value.rows[1], line.value.columns[0]) == Text(home)
  }

  /** Every row that is not an `All` row has NaN quarter cells. */
  predicate PlayersUnscored(box: Frame)
  {
    forall k, q :: 0 <= k < |box.rows| && q in Quarters && Get(box.rows[k], "PLAYER") != Text("All") ==>
      Get(box.rows[k], q) == Missing
  }

  /** Every `All` row carries the quarter points of its team's line-score row. */
  predicate CarriesLine(box: Frame, line: Frame)
    requires |line.columns| >= 5 && |line.rows| == 2
  {
    forall k, s, i ::
      (0 <= k < |box.rows| && 0 <= s < 2 && 1 <= i < 5
       && Get(box.rows[k], "PLAYER") == Text("All") && Get(box.rows[k], "TEAM") == Get(line.rows[s], line.columns[0])) ==>
      Get(box.rows[k], ScoringNames[i]) == Get(line.rows[s], line.columns[i])
  }

  /** The quarter cells of the left merge with the scoring table. */
  lemma ScoredRows(line: Frame, scoring: Frame, inner: Frame, box: Frame)
    requires |line.columns| >= 5 && |line.rows| == 2
    requires NoQuarters(inner.columns) && scoring.columns == ["TEAM", "PLAYER"] + Quarters && |scoring.rows| == 2
    requires forall j :: 0 <= j < 2 ==> Get(scoring.rows[j], "PLAYER") == Text("All")
    requires forall j, i :: 0 <= j < 2 && 0 <= i < 5 ==> Get(scoring.rows[j], ScoringNames[i]) == Get(line.rows[j], line.columns[i])
    requires Merge(inner, scoring, ["TEAM", "PLAYER"], LeftJoin) == Success(box)
    ensures PlayersUnscored(box)
    ensures Get(line.rows[0], line.columns[0]) != Get(line.rows[1], line.columns[0]) ==> CarriesLine(box, line)
  {
    forall k, q | 0 <= k < |box.rows| && q in Quarters && Get(box.rows[k], "PLAYER") != Text("All")
      ensures Get(box.rows[k], q) == Missing
    {
      PlayerQuarters(inner, scoring, box, k, q);
    }
    if Get(line.rows[0], line.columns[0]) != Get(line.rows[1], line.columns[0]) {
      assert Get(scoring.rows[0], ScoringNames[0]) != Get(scoring.rows[1], ScoringNames[0]);
      forall k, s, i | 0 <= k < |box.rows| && 0 <= s < 2 && 1 <= i < 5
        && Get(box.rows[k], "PLAYER") == Text("All") && Get(box.rows[k], "TEAM") == Get(line.rows[s], line.columns[0])
        ensures Get(box.rows[k], ScoringNames[i]) == Get(line.rows[s], line.columns[i])
      {
        assert Get(scoring.rows[s], ScoringNames[0]) == Get(line.rows[s], line.columns[0]);
        assert ScoringNames[i] in Quarters;
        AllQuarters(inner, scoring, box, k, s, ScoringNames[i]);
      }
    }
  }

  /**
   * Lines 111-122 (and 125-136): the home and the away table of one kind,
   * each tagged with its team and side, stacked home over away.
   */
  /** Lines 120-122 as one value: the home side's rows over the away side's. */
  function Stacked(read: Reader, text: string, fold: char -> string, away: string, home: string, kind: string): Result<Frame, string>
  {
    var homeSide :- Side(read, text, fold, home, true, kind);
    var awaySide :- Side(read, text, fold, away, false, kind);
    Success(Concat(homeSide, awaySide))
  }

  /**
   * The stacked frame fails exactly when one side does; otherwise its rows
   * are the home side's, in order, then the away side's, each cell of a
   * stacked label kept.
   */
  lemma StackedRows(read: Reader, text: string, fold: char -> string, away: string, home: string, kind: string)
    ensures Stacked(read, text, fold, away, home, kind).Failure? <==>
      Side(read, text, fold, home, true, kind).Failure? || Side(read, text, fold, away, false, kind).Failure?
    ensures Stacked(read, text, fold, away, home, kind).Success? ==>
      HomeOverAway(Side(read, text, fold, home, true, kind).value, Side(read, text, fold, away, false, kind).value,
                   Stacked(read, text, fold, away, home, kind).value)
  {
    var h, a := Side(read, text, fold, home, true, kind), Side(read, text, fold, away, false, kind);
    if h.Success? && a.Success? {
      ConcatOver(h.value, a.value);
    }
  }

  /** `s` holds the rows of `h`, then those of `a`, every cell of its labels kept. */
  predicate HomeOverAway(h: Frame, a: Frame, s: Frame)
  {
    && |s.rows| == |h.rows| + |a.rows|
    && (forall k, c :: 0 <= k < |h.rows| && c in s.columns ==> Get(s.rows[k], c) == Get(h.rows[k], c))
    && (forall k, c :: 0 <= k < |a.rows| && c in s.columns ==> Get(s.rows[|h.rows| + k], c) == Get(a.rows[k], c))
  }

  lemma ConcatOver(h: Frame, a: Frame)
    ensures HomeOverAway(h, a, Concat(h, a))
  {
    var s := Concat(h, a);
    forall k, c | 0 <= k < |a.rows| && c in s.columns ensures Get(s.rows[|h.rows| + k], c) == Get(a.rows[k], c) {
      assert |h.rows| <= |h.rows| + k < |s.rows|;
    }
  }

  method StackedTables(read: Reader, text: string, fold: char -> string, away: string, home: string, kind: string)
    returns (r: Result<Frame, string>)
    ensures r == Stacked(read, text, fold, away, home, kind)
    ensures read(text, TableId(home, kind)).None? || read(text, TableId(away, kind)).None? ==> r.Failure?
    ensures r.Success? ==> |r.value.columns| >= 2 && r.value.columns[0] == "TEAM" && r.value.columns[1] == "IS_HOME"
    ensures r.Success? ==> "PLAYER" in r.value.columns
    ensures r.Success? ==> forall k :: 0 <= k < |r.value.rows| ==> Tagged(r.value.rows[k], away, home)
    ensures r.Success? && Unquartered(read, text) ==> NoQuarters(r.value.columns)
  {
    var homeSide :- SideTable(read, text, fold, home, true, kind);
    var awaySide :- SideTable(read, text, fold, away, false, kind);
    ConcatTagged(homeSide, awaySide, away, home);
    var stacked := Concat(homeSide, awaySide);
    assert Unquartered(read, text) ==> NoQuarters(stacked.columns) by {
      if Unquartered(read, text) {
        forall q | q in Quarters ensures q !in stacked.columns {
          assert q !in homeSide.columns && q !in awaySide.columns;
        }
      }
    }
    return Success(stacked);
  }

  /** The merges of JoinTables keep every row tagged. */
  lemma JoinedTags(basic: Frame, advanced: Frame, scoring: Frame, inner: Frame, box: Frame, away: string, home: string)
    requires |basic.columns| >= 2 && basic.columns[1] == "IS_HOME"
    requires forall k :: 0 <= k < |basic.rows| ==> Tagged(basic.rows[k], away, home)
    requires scoring.columns == ["TEAM", "PLAYER"] + Quarters
    requires Merge(basic, advanced, ["TEAM", "IS_HOME", "PLAYER"], Inner) == Success(inner)
    requires Merge(inner, scoring, ["TEAM", "PLAYER"], LeftJoin) == Success(box)
    ensures forall k :: 0 <= k < |box.rows| ==> Tagged(box.rows[k], away, home)
  {
    InnerTagged(basic, advanced, inner, away, home);
    LeftTagged(inner, scoring, box, away, home);
  }

  /** Without quarter labels of their own, the merged tables take their quarters from the line score only. */
  lemma JoinedQuarters(line: Frame, scoring: Frame, basic: Frame, advancedAll: Frame, stacked: Frame, inner: Frame, box: Frame)
    requires |line.columns| >= 5 && |line.rows| == 2
    requires scoring.columns == ["TEAM", "PLAYER"] + Quarters && |scoring.rows| == 2
    requires forall j :: 0 <= j < 2 ==> Get(scoring.rows[j], "PLAYER") == Text("All")
    requires forall j, i :: 0 <= j < 2 && 0 <= i < 5 ==> Get(scoring.rows[j], ScoringNames[i]) == Get(line.rows[j], line.columns[i])
    requires NoQuarters(basic.columns) && NoQuarters(advancedAll.columns)
    requires Drop(advancedAll, "MP") == Success(stacked)
    requires Merge(basic, Rename(stacked, "Unnamed: 16_level_1", "BPM"), ["TEAM", "IS_HOME", "PLAYER"], Inner) == Success(inner)
    requires Merge(inner, scoring, ["TEAM", "PLAYER"], LeftJoin) == Success(box)
    ensures PlayersUnscored(box)
    ensures Get(line.rows[0], line.columns[0]) != Get(line.rows[1], line.columns[0]) ==> CarriesLine(box, line)
  {
    var advanced := Rename(stacked, "Unnamed: 16_level_1", "BPM");
    AdvancedNoQuarters(advancedAll, stacked, advanced);
    MergedNoQuarters(basic.columns, advanced.columns, ["TEAM", "IS_HOME", "PLAYER"]);
    ScoredRows(line, scoring, inner, box);
  }

  /** The joined frame of one game, with the abbreviations of its two teams. */
  datatype Joined = Joined(box: Frame, away: string, home: string)

  /**
   * Lines 137-144 as one value: the stacked advanced rows lose MP and have
   * their unnamed last column called BPM, are merged with the stacked basic
   * rows on team, side and player (inner), and the scoring rows are
   * left-merged on team and player.
   */
  function Merged(basic: Frame, advancedAll: Frame, scoring: Frame): Result<Frame, string>
  {
    var stacked :- Drop(advancedAll, "MP");
    var inner :- Merge(basic, Rename(stacked, "Unnamed: 16_level_1", "BPM"), ["TEAM", "IS_HOME", "PLAYER"], Inner);
    Merge(inner, scoring, ["TEAM", "PLAYER"], LeftJoin)
  }

  /** The five scoring columns of the line score, and two teams whose first cells are text. */
  predicate LineReady(line: Frame)
  {
    |line.columns| >= 5 && |line.rows| == 2
    && Get(line.rows[0], line.columns[0]).Text? && Get(line.rows[1], line.columns[0]).Text?
  }

  /** Both teams' tables of one kind are on the page and can be parsed and tagged. */
  ghost predicate TablesReady(read: Reader, text: string, fold: char -> string, away: string, home: string, kind: string)
  {
    && read(text, TableId(home, kind)).Some? && SideReady(read(text, TableId(home, kind)).value, fold)
    && read(text, TableId(away, kind)).Some? && SideReady(read(text, TableId(away, kind)).value, fold)
  }

  /**
   * A page the joins accept: a line score as LineReady asks, the four team
   * tables ready, and an MP column in one of the advanced tables.
   */
  ghost predicate PageReady(read: Reader, text: string, fold: char -> string)
  {
    && read(text, "line_score").Some? && LineReady(read(text, "line_score").value)
    && var line := read(text, "line_score").value;
       var away, home := Get(line.rows[0], line.columns[0]).text, Get(line.rows[1], line.columns[0]).text;
       && TablesReady(read, text, fold, away, home, "basic")
       && TablesReady(read, text, fold, away, home, "advanced")
       && ("MP" in Renamed(read(text, TableId(home, "advanced")).value).columns
           || "MP" in Renamed(read(text, TableId(away, "advanced")).value).columns)
  }

  /** The scoring table of a line score with five columns. */
  lemma ScoringOf(line: Frame)
    requires |line.columns| >= 5
    ensures Scoring(line).Success? && |Scoring(line).value.rows| == |line.rows|
    ensures Scoring(line).value.columns == ["TEAM", "PLAYER"] + Quarters
    ensures forall k, i :: 0 <= k < |line.rows| && 0 <= i < 5 ==>
      Get(Scoring(line).value.rows[k], ScoringNames[i]) == Get(line.rows[k], line.columns[i])
  {
    var first := Select(line, line.columns[..5]);
    assert forall i :: 0 <= i < 5 ==> line.columns[..5][i] in line.columns;
    var named := SetColumns(first.value, ScoringNames);
    assert "PLAYER" !in ScoringNames;
    ScoringCells(line, first.value, named.value, Insert(named.value, 1, "PLAYER", Text("All")).value);
  }

  /** The merges of lines 137-144 go through when both stacks carry the keys and the advanced one has MP. */
  lemma MergedSucceeds(basic: Frame, advancedAll: Frame, scoring: Frame)
    requires "TEAM" in basic.columns && "IS_HOME" in basic.columns && "PLAYER" in basic.columns
    requires "TEAM" in advancedAll.columns && "IS_HOME" in advancedAll.columns && "PLAYER" in advancedAll.columns
    requires "MP" in advancedAll.columns
    requires "TEAM" in scoring.columns && "PLAYER" in scoring.columns
    ensures Merged(basic, advancedAll, scoring).Success?
  {
    var stacked := Drop(advancedAll, "MP").value;
    AdvancedKept(advancedAll, stacked);
    var advanced := Rename(stacked, "Unnamed: 16_level_1", "BPM");
    InnerSucceeds(basic, advanced);
    var inner := Merge(basic, advanced, ["TEAM", "IS_HOME", "PLAYER"], Inner).value;
    var on := ["TEAM", "PLAYER"];
    assert forall i :: 0 <= i < |on| ==> on[i] in inner.columns && on[i] in scoring.columns;
    assert Merge(inner, scoring, on, LeftJoin).Success?;
  }

  /** The advanced stack keeps its keys once MP is dropped and BPM named. */
  lemma AdvancedKept(advancedAll: Frame, stacked: Frame)
    requires "TEAM" in advancedAll.columns && "IS_HOME" in advancedAll.columns && "PLAYER" in advancedAll.columns
    requires Drop(advancedAll, "MP") == Success(stacked)
    ensures forall c :: c in ["TEAM", "IS_HOME", "PLAYER"] ==> c in Rename(stacked, "Unnamed: 16_level_1", "BPM").columns
  {
    RenameKeeps(stacked, "Unnamed: 16_level_1", "BPM", "TEAM");
    RenameKeeps(stacked, "Unnamed: 16_level_1", "BPM", "IS_HOME");
    RenameKeeps(stacked, "Unnamed: 16_level_1", "BPM", "PLAYER");
  }

  /** The inner merge on team, side and player goes through when both sides carry the three keys, and keeps TEAM and PLAYER. */
  lemma InnerSucceeds(basic: Frame, advanced: Frame)
    requires forall c :: c in ["TEAM", "IS_HOME", "PLAYER"] ==> c in basic.columns && c in advanced.columns
    ensures Merge(basic, advanced, ["TEAM", "IS_HOME", "PLAYER"], Inner).Success?
    ensures "TEAM" in Merge(basic, advanced, ["TEAM", "IS_HOME", "PLAYER"], Inner).value.columns
    ensures "PLAYER" in Merge(basic, advanced, ["TEAM", "IS_HOME", "PLAYER"], Inner).value.columns
  {
    var on := ["TEAM", "IS_HOME", "PLAYER"];
    assert forall i :: 0 <= i < |on| ==> on[i] in basic.columns && on[i] in advanced.columns;
    MergedKeeps(basic.columns, advanced.columns, on, "TEAM");
    MergedKeeps(basic.columns, advanced.columns, on, "PLAYER");
  }

  /** A key of the merge keeps its label. */
  lemma MergedKeeps(left: seq<string>, right: seq<string>, on: seq<string>, c: string)
    requires c in left && c in on
    ensures c in MergedColumns(left, right, on)
  {
    var i :| 0 <= i < |left| && left[i] == c;
    assert MergedColumns(left, right, on)[i] == c;
  }

  /** On a page as PageReady asks, the joins go through. */
  lemma JoinSucceeds(read: Reader, text: string, fold: char -> string)
    requires PageReady(read, text, fold)
    ensures JoinOf(read, text, fold).Success?
  {
    var line := read(text, "line_score").value;
    ScoringOf(line);
    var scoring := Scoring(line).value;
    assert Get(scoring.rows[0], "TEAM") == Get(line.rows[0], line.columns[0]) by { assert ScoringNames[0] == "TEAM"; }
    assert Get(scoring.rows[1], "TEAM") == Get(line.rows[1], line.columns[0]) by { assert ScoringNames[0] == "TEAM"; }
    var away, home := Get(line.rows[0], line.columns[0]).text, Get(line.rows[1], line.columns[0]).text;
    SideFails(read, text, fold, home, true, "basic");
    SideFails(read, text, fold, away, false, "basic");
    SideFails(read, text, fold, home, true, "advanced");
    SideFails(read, text, fold, away, false, "advanced");
    var basic := Stacked(read, text, fold, away, home, "basic").value;
    var advancedAll := Stacked(read, text, fold, away, home, "advanced").value;
    StackedKeys(Side(read, text, fold, home, true, "basic").value, Side(read, text, fold, away, false, "basic").value);
    StackedKeys(Side(read, text, fold, home, true, "advanced").value, Side(read, text, fold, away, false, "advanced").value);
    MergedSucceeds(basic, advancedAll, scoring);
  }

  /** The stacked labels are those of either side. */
  lemma StackedKeys(h: Frame, a: Frame)
    ensures forall c :: c in h.columns || c in a.columns ==> c in Concat(h, a).columns
  {
  }

  /** Lines 103-144 as one value. */
  function JoinOf(read: Reader, text: string, fold: char -> string): Result<Joined, string>
  {
    var line :- Read(read, text, "line_score");
    var scoring :- Scoring(line);
    if |scoring.rows| != 2 then Failure("ValueError: expected 2 teams in the line score")
    else if !Get(scoring.rows[0], "TEAM").Text? || !Get(scoring.rows[1], "TEAM").Text? then
      Failure("ValueError: no team abbreviation in the line score")
    else
      var away, home := Get(scoring.rows[0], "TEAM").text, Get(scoring.rows[1], "TEAM").text;
      var basic :- Stacked(read, text, fold, away, home, "basic");
      var advancedAll :- Stacked(read, text, fold, away, home, "advanced");
      var box :- Merged(basic, advancedAll, scoring);
      Success(Joined(box, away, home))
  }

  /**
   * What the joins of lines 103-144 give: the teams read off the line
   * score, away first; the joined rows are exactly the merges of the two
   * teams' stacked basic and advanced tables and of the scoring rows; every
   * row tagged with one of the teams and its side; and, when no table has
   * quarter columns of its own, quarter points on the `All` rows only,
   * those of their team's line.
   */
  ghost predicate JoinedFrom(read: Reader, text: string, fold: char -> string, j: Joined)
  {
    && LineTeams(read(text, "line_score"), j.away, j.home)
    && Scoring(read(text, "line_score").value).Success?
    && Stacked(read, text, fold, j.away, j.home, "basic").Success?
    && Stacked(read, text, fold, j.away, j.home, "advanced").Success?
    && Merged(Stacked(read, text, fold, j.away, j.home, "basic").value, Stacked(read, text, fold, j.away, j.home, "advanced").value,
              Scoring(read(text, "line_score").value).value) == Success(j.box)
    && (forall k :: 0 <= k < |j.box.rows| ==> Tagged(j.box.rows[k], j.away, j.home))
    && (Unquartered(read, text) ==> PlayersUnscored(j.box))
    && (Unquartered(read, text) && j.away != j.home ==> CarriesLine(j.box, read(text, "line_score").value))
  }

  /**
   * Lines 103-144: the two teams are read off the line score, away first;
   * each side's basic and advanced tables are stacked home over away, the
   * advanced ones without MP and with their unnamed last column as BPM; the
   * two are merged on team, side and player, and the line score's quarters
   * are left-merged on team and player. Every row is tagged with a side;
   * when no table has quarter columns of its own, only the `All` rows carry
   * quarter points, those of their team's line.
   */
  /** The merges of lines 137-144 keep every row tagged and, without quarter labels of the tables' own, take quarters from the line only. */
  lemma JoinedShape(line: Frame, scoring: Frame, basic: Frame, advancedAll: Frame, stacked: Frame, inner: Frame, box: Frame,
                    away: string, home: string, unquartered: bool)
    requires |line.columns| >= 5 && |line.rows| == 2
    requires scoring.columns == ["TEAM", "PLAYER"] + Quarters && |scoring.rows| == 2
    requires forall k :: 0 <= k < 2 ==> Get(scoring.rows[k], "PLAYER") == Text("All")
    requires forall k, i :: 0 <= k < 2 && 0 <= i < 5 ==> Get(scoring.rows[k], ScoringNames[i]) == Get(line.rows[k], line.columns[i])
    requires Get(scoring.rows[0], "TEAM") == Text(away) && Get(scoring.rows[1], "TEAM") == Text(home)
    requires |basic.columns| >= 2 && basic.columns[1] == "IS_HOME"
    requires forall k :: 0 <= k < |basic.rows| ==> Tagged(basic.rows[k], away, home)
    requires unquartered ==> NoQuarters(basic.columns) && NoQuarters(advancedAll.columns)
    requires Drop(advancedAll, "MP") == Success(stacked)
    requires Merge(basic, Rename(stacked, "Unnamed: 16_level_1", "BPM"), ["TEAM", "IS_HOME", "PLAYER"], Inner) == Success(inner)
    requires Merge(inner, scoring, ["TEAM", "PLAYER"], LeftJoin) == Success(box)
    ensures LineTeams(Some(line), away, home)
    ensures Merged(basic, advancedAll, scoring) == Success(box)
    ensures forall k :: 0 <= k < |box.rows| ==> Tagged(box.rows[k], away, home)
    ensures unquartered ==> PlayersUnscored(box)
    ensures unquartered && away != home ==> CarriesLine(box, line)
  {
    assert Get(scoring.rows[0], ScoringNames[0]) == Get(line.rows[0], line.columns[0]);
    assert Get(scoring.rows[1], ScoringNames[0]) == Get(line.rows[1], line.columns[0]);
    JoinedTags(basic, Rename(stacked, "Unnamed: 16_level_1", "BPM"), scoring, inner, box, away, home);
    if unquartered {
      JoinedQuarters(line, scoring, basic, advancedAll, stacked, inner, box);
    }
  }

  method JoinTables(read: Reader, text: string, fold: char -> string) returns (r: Result<Joined, string>)
    ensures r == JoinOf(read, text, fold)
    ensures read(text, "line_score").None? ==> r.Failure?
    ensures r.Success? ==> JoinedFrom(read, text, fold, r.value)
  {
    var line :- Read(read, text, "line_score");
    var scoring :- ScoringTable(line);
    if |scoring.rows| != 2 {
      return Failure("ValueError: expected 2 teams in the line score");
    }
    var awayCell, homeCell := Get(scoring.rows[0], "TEAM"), Get(scoring.rows[1], "TEAM");
    if !awayCell.Text? || !homeCell.Text? {
      return Failure("ValueError: no team abbreviation in the line score");
    }
    var away, home := awayCell.text, homeCell.text;
    var basic :- StackedTables(read, text, fold, away, home, "basic");
    var advancedAll :- StackedTables(read, text, fold, away, home, "advanced");
    var stacked :- Drop(advancedAll, "MP");
    var advanced := Rename(stacked, "Unnamed: 16_level_1", "BPM");
    var inner :- Merge(basic, advanced, ["TEAM", "IS_HOME", "PLAYER"], Inner);
    var box :- Merge(inner, scoring, ["TEAM", "PLAYER"], LeftJoin);
    JoinedShape(line, scoring, basic, advancedAll, stacked, inner, box, away, home, Unquartered(read, text));
    return Success(Joined(box, away, home));
  }


  // ---------------------------------------------------------------------
  // The output frame

  /** `str.replace('%', '_PERC').str.upper()` on one label. */
  function Heading(c: string): string
  {
    Upper(Replace(c, "%", "_PERC"))
  }

  /** A label with no `%` and no lower-case letter is its own heading. */
  lemma HeadingPlain(c: string)
    requires Plain(c)
    ensures Heading(c) == c
  {
    ReplaceNoFirst(c, "%", "_PERC");
    assert Upper(c) == c;
  }

  /** No label of `cols` heads to `n`. */
  predicate Fresh(cols: seq<string>, n: string)
  {
    forall d :: d in cols ==> Heading(d) != n
  }

  /** A label whose heading is an output column other than those Finish fills itself. */
  predicate Carried(cols: seq<string>, d: string)
  {
    Alone(cols, Heading, d) && Heading(d) in Keys
    && Heading(d) != "GAME_ID" && Heading(d) != "MP" && Heading(d) != "PLUS_MINUS"
  }

  /** Every cell of each output column has the type `boxscore_dtypes` gives it. */
  predicate TypedRows(f: Frame, keys: seq<string>)
  {
    forall k, i :: 0 <= k < |f.rows| && 0 <= i < |keys| ==> OfKind(KindOf(keys[i]), Get(f.rows[k], Lower(keys[i])))
  }

  /** Inserting GAME_ID first keeps every other label alone under its heading. */
  lemma InsertedId(box: Frame, gameId: string, box1: Frame)
    requires Insert(box, 0, "GAME_ID", Text(gameId)) == Success(box1)
    ensures |box1.rows| == |box.rows|
    ensures forall k, d :: 0 <= k < |box.rows| && d != "GAME_ID" ==> Get(box1.rows[k], d) == Get(box.rows[k], d)
    ensures forall k :: 0 <= k < |box.rows| ==> Get(box1.rows[k], "GAME_ID") == Text(gameId)
    ensures forall d :: Alone(box.columns, Heading, d) && Heading(d) != "GAME_ID" ==> Alone(box1.columns, Heading, d)
    ensures Fresh(box.columns, "GAME_ID") ==> Alone(box1.columns, Heading, "GAME_ID")
    ensures forall n :: Fresh(box.columns, n) && n != "GAME_ID" ==> Fresh(box1.columns, n)
  {
    assert box1.columns == ["GAME_ID"] + box.columns;
    assert Plain("GAME_ID");
    HeadingPlain("GAME_ID");
  }

  /** Lines 147-148: the labels as headings, with `+/-` as PLUS_MINUS; each cell moves with its label. */
  lemma HeadedCells(box1: Frame, box3: Frame)
    requires box3 == Rename(Relabel(box1, Heading), "+/-", "PLUS_MINUS")
    ensures |box3.rows| == |box1.rows|
    ensures forall k, d :: 0 <= k < |box1.rows| && Alone(box1.columns, Heading, d) && Heading(d) != "+/-" && Heading(d) != "PLUS_MINUS" ==>
      Heading(d) in box3.columns && Get(box3.rows[k], Heading(d)) == Get(box1.rows[k], d)
    ensures Alone(box1.columns, Heading, "+/-") && Fresh(box1.columns, "PLUS_MINUS") ==>
      "PLUS_MINUS" in box3.columns && forall k :: 0 <= k < |box1.rows| ==> Get(box3.rows[k], "PLUS_MINUS") == Get(box1.rows[k], "+/-")
    ensures forall n :: Fresh(box1.columns, n) && n != "PLUS_MINUS" ==> n !in box3.columns
  {
    forall d | Alone(box1.columns, Heading, d) && Heading(d) != "+/-" && Heading(d) != "PLUS_MINUS"
      ensures Heading(d) in box3.columns
      ensures forall k :: 0 <= k < |box1.rows| ==> Get(box3.rows[k], Heading(d)) == Get(box1.rows[k], d)
    {
      HeadedKept(box1, box3, d);
    }
    HeadedPlusMinus(box1, box3);
    HeadedFresh(box1, box3);
  }

  /** A label alone under a heading other than `+/-` and PLUS_MINUS moves there with its cells. */
  lemma HeadedKept(box1: Frame, box3: Frame, d: string)
    requires box3 == Rename(Relabel(box1, Heading), "+/-", "PLUS_MINUS")
    requires Alone(box1.columns, Heading, d) && Heading(d) != "+/-" && Heading(d) != "PLUS_MINUS"
    ensures Heading(d) in box3.columns
    ensures forall k :: 0 <= k < |box1.rows| ==> Get(box3.rows[k], Heading(d)) == Get(box1.rows[k], d)
  {
    var box2 := Relabel(box1, Heading);
    RelabelKeeps(box1, Heading, d);
    RenameKeeps(box2, "+/-", "PLUS_MINUS", Heading(d));
  }

  /** A lone `+/-` label whose new name is free becomes PLUS_MINUS, cells and all. */
  lemma HeadedPlusMinus(box1: Frame, box3: Frame)
    requires box3 == Rename(Relabel(box1, Heading), "+/-", "PLUS_MINUS")
    ensures Alone(box1.columns, Heading, "+/-") && Fresh(box1.columns, "PLUS_MINUS") ==>
      "PLUS_MINUS" in box3.columns && forall k :: 0 <= k < |box1.rows| ==> Get(box3.rows[k], "PLUS_MINUS") == Get(box1.rows[k], "+/-")
  {
    var box2 := Relabel(box1, Heading);
    assert Plain("+/-");
    HeadingPlain("+/-");
    if Alone(box1.columns, Heading, "+/-") && Fresh(box1.columns, "PLUS_MINUS") {
      RelabelKeeps(box1, Heading, "+/-");
      RenamedTo(box2, "+/-", "PLUS_MINUS");
      assert "PLUS_MINUS" !in box2.columns;
    }
  }

  /** No label is headed to a name no heading had, other than PLUS_MINUS. */
  lemma HeadedFresh(box1: Frame, box3: Frame)
    requires box3 == Rename(Relabel(box1, Heading), "+/-", "PLUS_MINUS")
    ensures forall n :: Fresh(box1.columns, n) && n != "PLUS_MINUS" ==> n !in box3.columns
  {
    assert Plain("+/-");
    HeadingPlain("+/-");
  }

  /** A label in a relabelled frame under its new name. */
  lemma RelabelKeeps(f: Frame, g: string -> string, d: string)
    requires d in f.columns
    ensures g(d) in Relabel(f, g).columns
  {
    var i :| 0 <= i < |f.columns| && f.columns[i] == d;
    assert Relabel(f, g).columns[i] == g(d);
  }

  /** A label other than the renamed one survives a rename. */
  lemma RenameKeeps(f: Frame, from: string, to: string, c: string)
    requires c in f.columns && c != from
    ensures c in Rename(f, from, to).columns
  {
    var i :| 0 <= i < |f.columns| && f.columns[i] == c;
    assert Rename(f, from, to).columns[i] == c;
  }

  /** The new name of a renamed label is among the labels. */
  lemma RenamedTo(f: Frame, from: string, to: string)
    requires from in f.columns
    ensures to in Rename(f, from, to).columns
  {
    var i :| 0 <= i < |f.columns| && f.columns[i] == from;
    assert Rename(f, from, to).columns[i] == to;
  }

  /** Lines 149-163: the sentinels become `'NaN'`, MP becomes minutes, and a missing BPM column is added as NaN. */
  lemma CleanedCells(box3: Frame, box5: Frame, box6: Frame)
    requires MapColumn(ReplaceCells(box3, Scrub), "MP", MinutesPlayed) == Success(box5)
    requires ("BPM" in box5.columns && box6 == box5)
      || ("BPM" !in box5.columns && Insert(box5, 38, "BPM", Missing) == Success(box6))
    ensures |box6.rows| == |box3.rows|
    ensures forall k, c :: 0 <= k < |box3.rows| && c in box3.columns && c != "MP" ==>
      c in box6.columns && Get(box6.rows[k], c) == Scrub(Get(box3.rows[k], c))
    ensures "MP" in box6.columns && forall k :: 0 <= k < |box3.rows| ==>
      Success(Get(box6.rows[k], "MP")) == MinutesPlayed(Scrub(Get(box3.rows[k], "MP")))
    ensures "BPM" !in box3.columns ==> "BPM" in box6.columns && forall k :: 0 <= k < |box3.rows| ==> Get(box6.rows[k], "BPM") == Missing
  {
    var box4 := ReplaceCells(box3, Scrub);
    assert "MP" in box4.columns;
    if "BPM" !in box5.columns {
      InsertKeeps(box5, 38, "BPM", Missing, box6);
    }
  }

  /** An insertion keeps every label there was. */
  lemma InsertKeeps(f: Frame, loc: int, c: string, v: Cell, g: Frame)
    requires Insert(f, loc, c, v) == Success(g)
    ensures forall d :: d in f.columns ==> d in g.columns
  {
    forall d | d in f.columns ensures d in g.columns {
      var i :| 0 <= i < |f.columns| && f.columns[i] == d;
      if i < loc {
        assert g.columns[i] == d;
      } else {
        assert g.columns[i + 1] == d;
      }
    }
  }

  /** Lines 160-168: the output columns selected and typed, then lower-cased. */
  lemma TypedCells(box6: Frame, sel: Frame, typed: Frame, out: Frame, keys: seq<string>, kinds: map<string, Kind>)
    requires forall c :: c in keys ==> Alone(keys, Lower, c) && c in kinds && kinds[c] == KindOf(c)
    requires Select(box6, keys) == Success(sel)
    requires AsType(sel, kinds, Convert) == Success(typed)
    requires out == Relabel(typed, Lower)
    ensures |out.columns| == |keys| && |out.rows| == |box6.rows|
    ensures forall i :: 0 <= i < |keys| ==> out.columns[i] == Lower(keys[i])
    ensures forall k, c :: 0 <= k < |box6.rows| && c in keys ==>
      Success(Get(out.rows[k], Lower(c))) == Convert(KindOf(c), Get(box6.rows[k], c))
  {
    forall k, c | 0 <= k < |box6.rows| && c in keys
      ensures Success(Get(out.rows[k], Lower(c))) == Convert(KindOf(c), Get(box6.rows[k], c))
    {
      assert c in sel.columns;
    }
  }

  /** One cell of TypedCells. */
  lemma TypedCell(box6: Frame, sel: Frame, typed: Frame, out: Frame, keys: seq<string>, kinds: map<string, Kind>, k: int, c: string)
    requires forall c :: c in keys ==> Alone(keys, Lower, c) && c in kinds && kinds[c] == KindOf(c)
    requires Select(box6, keys) == Success(sel)
    requires AsType(sel, kinds, Convert) == Success(typed)
    requires out == Relabel(typed, Lower)
    requires 0 <= k < |box6.rows| && c in keys
    ensures Success(Get(out.rows[k], Lower(c))) == Convert(KindOf(c), Get(box6.rows[k], c))
  {
    assert c in sel.columns;
  }

  /** Each output key is alone under lower-casing and has its type. */
  lemma KeysKinds()
    ensures forall c :: c in Keys ==> Alone(Keys, Lower, c) && c in Kinds && Kinds[c] == KindOf(c)
  {
    forall c | c in Keys ensures Alone(Keys, Lower, c) {
      KeysAlone(c);
    }
  }

  /** Labels that are the keys lower-cased, in order, are the output labels. */
  lemma OutputColumns(cols: seq<string>)
    requires |cols| == |Keys| && forall i :: 0 <= i < |Keys| ==> cols[i] == Lower(Keys[i])
    ensures cols == Output
  {
  }

  /** Cells that are conversions succeeded have their column's type. */
  lemma TypedRowsOf(box6: Frame, out: Frame, keys: seq<string>)
    requires |out.rows| == |box6.rows|
    requires forall k, c :: 0 <= k < |box6.rows| && c in keys ==>
      Success(Get(out.rows[k], Lower(c))) == Convert(KindOf(c), Get(box6.rows[k], c))
    ensures TypedRows(out, keys)
  {
    forall k, i | 0 <= k < |out.rows| && 0 <= i < |keys| ensures OfKind(KindOf(keys[i]), Get(out.rows[k], Lower(keys[i]))) {
      assert keys[i] in keys;
    }
  }

  /** The labels Finish itself inserts or renames to are their own headings. */
  lemma OwnHeadings()
    ensures Heading("GAME_ID") == "GAME_ID" && Heading("+/-") == "+/-"
  {
    assert Plain("GAME_ID") && Plain("+/-");
    HeadingPlain("GAME_ID");
    HeadingPlain("+/-");
  }

  /** The output names of the columns Finish fills itself. */
  lemma OwnOutputs()
    ensures Lower("GAME_ID") == "game_id" && Lower("MP") == "mp" && Lower("PLUS_MINUS") == "plus_minus" && Lower("BPM") == "bpm"
  {
    assert Lower("GAME_ID") == "game_id";
    assert Lower("MP") == "mp";
    assert Lower("PLUS_MINUS") == "plus_minus";
  }

  /** The columns Finish fills itself are output keys. */
  lemma OwnKeys()
    ensures "GAME_ID" in Keys && "MP" in Keys && "PLUS_MINUS" in Keys && "BPM" in Keys
  {
    assert IdKeys[0] == "GAME_ID" && BasicKeys[0] == "MP" && BasicKeys[19] == "PLUS_MINUS" && AdvancedKeys[14] == "BPM";
    assert Keys[0] == "GAME_ID" && Keys[4] == "MP" && Keys[23] == "PLUS_MINUS" && Keys[38] == "BPM";
  }

  /** `+/-` is not an output key; it is renamed first. */
  lemma PlusMinusNotKey()
    ensures "+/-" !in Keys
  {
    assert "+/-" !in IdKeys;
    assert "+/-" !in BasicKeys;
    assert "+/-" !in AdvancedKeys;
    assert "+/-" !in Quarters;
  }

  /** The steps of lines 145-148, from the joined frame to the headed one. */
  predicate HeadSteps(gameId: string, box: Frame, box1: Frame, box3: Frame)
  {
    Insert(box, 0, "GAME_ID", Text(gameId)) == Success(box1)
    && box3 == Rename(Relabel(box1, Heading), "+/-", "PLUS_MINUS")
  }

  /** The steps of lines 149-168, from the headed frame to the output. */
  predicate LaterSteps(box3: Frame, box5: Frame, box6: Frame, sel: Frame, typed: Frame, out: Frame)
  {
    MapColumn(ReplaceCells(box3, Scrub), "MP", MinutesPlayed) == Success(box5)
    && (("BPM" in box5.columns && box6 == box5) || ("BPM" !in box5.columns && Insert(box5, 38, "BPM", Missing) == Success(box6)))
    && Select(box6, Keys) == Success(sel)
    && AsType(sel, Kinds, Convert) == Success(typed)
    && out == Relabel(typed, Lower)
  }

  /** The output has the output labels, one row per headed row, each cell of its column's type. */
  lemma LaterShape(box3: Frame, box5: Frame, box6: Frame, sel: Frame, typed: Frame, out: Frame)
    requires LaterSteps(box3, box5, box6, sel, typed, out)
    ensures out.columns == Output && |out.rows| == |box3.rows| && TypedRows(out, Keys)
  {
    CleanedCells(box3, box5, box6);
    KeysKinds();
    TypedCells(box6, sel, typed, out, Keys, Kinds);
    OutputColumns(out.columns);
    TypedRowsOf(box6, out, Keys);
  }

  /** An output cell other than mp is its headed cell, scrubbed and converted. */
  lemma LaterCell(box3: Frame, box5: Frame, box6: Frame, sel: Frame, typed: Frame, out: Frame, k: int, c: string)
    requires LaterSteps(box3, box5, box6, sel, typed, out)
    requires 0 <= k < |box3.rows| && c in box3.columns && c != "MP" && c in Keys
    ensures Success(Get(out.rows[k], Lower(c))) == Convert(KindOf(c), Scrub(Get(box3.rows[k], c)))
  {
    CleanedCells(box3, box5, box6);
    KeysKinds();
    TypedCells(box6, sel, typed, out, Keys, Kinds);
  }

  /** An output game_id cell is its headed GAME_ID cell, scrubbed and converted. */
  lemma LaterId(box3: Frame, box5: Frame, box6: Frame, sel: Frame, typed: Frame, out: Frame, k: int)
    requires LaterSteps(box3, box5, box6, sel, typed, out)
    requires 0 <= k < |box3.rows| && "GAME_ID" in box3.columns
    ensures Success(Get(out.rows[k], "game_id")) == Convert(Str, Scrub(Get(box3.rows[k], "GAME_ID")))
  {
    OwnOutputs();
    OwnKeys();
    LaterCell(box3, box5, box6, sel, typed, out, k, "GAME_ID");
  }

  /** An output plus_minus cell is its headed PLUS_MINUS cell, scrubbed and converted. */
  lemma LaterPlusMinus(box3: Frame, box5: Frame, box6: Frame, sel: Frame, typed: Frame, out: Frame, k: int)
    requires LaterSteps(box3, box5, box6, sel, typed, out)
    requires 0 <= k < |box3.rows| && "PLUS_MINUS" in box3.columns
    ensures Success(Get(out.rows[k], "plus_minus")) == Convert(Float, Scrub(Get(box3.rows[k], "PLUS_MINUS")))
  {
    OwnOutputs();
    OwnKeys();
    LaterCell(box3, box5, box6, sel, typed, out, k, "PLUS_MINUS");
  }

  /** An output mp cell is its headed MP cell, scrubbed and read as minutes. */
  lemma LaterMinutes(box3: Frame, box5: Frame, box6: Frame, sel: Frame, typed: Frame, out: Frame, k: int)
    requires LaterSteps(box3, box5, box6, sel, typed, out)
    requires 0 <= k < |box3.rows|
    ensures Success(Get(out.rows[k], "mp")) == MinutesPlayed(Scrub(Get(box3.rows[k], "MP")))
  {
    CleanedMinutes(box3, box5, box6, k);
    TypedMinutes(box6, sel, typed, out, k);
    MinutesStayFloat(Get(box6.rows[k], "MP"), Get(out.rows[k], "mp"), MinutesPlayed(Scrub(Get(box3.rows[k], "MP"))));
  }

  /** The MP cell after the clean-up steps is the scrubbed cell read as minutes. */
  lemma CleanedMinutes(box3: Frame, box5: Frame, box6: Frame, k: int)
    requires MapColumn(ReplaceCells(box3, Scrub), "MP", MinutesPlayed) == Success(box5)
    requires ("BPM" in box5.columns && box6 == box5)
      || ("BPM" !in box5.columns && Insert(box5, 38, "BPM", Missing) == Success(box6))
    requires 0 <= k < |box3.rows|
    ensures |box6.rows| == |box3.rows|
    ensures Success(Get(box6.rows[k], "MP")) == MinutesPlayed(Scrub(Get(box3.rows[k], "MP")))
  {
    CleanedCells(box3, box5, box6);
  }

  /** The output mp cell is the MP cell converted to float. */
  lemma TypedMinutes(box6: Frame, sel: Frame, typed: Frame, out: Frame, k: int)
    requires Select(box6, Keys) == Success(sel)
    requires AsType(sel, Kinds, Convert) == Success(typed)
    requires out == Relabel(typed, Lower)
    requires 0 <= k < |box6.rows|
    ensures Success(Get(out.rows[k], "mp")) == Convert(Float, Get(box6.rows[k], "MP"))
  {
    KeysKinds();
    OwnOutputs();
    OwnKeys();
    TypedCell(box6, sel, typed, out, Keys, Kinds, k, "MP");
  }

  /** Minutes already read as a float are left alone by the float conversion. */
  lemma MinutesStayFloat(minutes: Cell, typed: Cell, read: Result<Cell, string>)
    requires Success(minutes) == read && (read.value.Missing? || read.value.Number?)
    requires Success(typed) == Convert(Float, minutes)
    ensures Success(typed) == read
  {
    assert OfKind(Float, minutes);
  }

  /** Without a headed BPM column, every output bpm cell is NaN. */
  lemma LaterBpm(box3: Frame, box5: Frame, box6: Frame, sel: Frame, typed: Frame, out: Frame, k: int)
    requires LaterSteps(box3, box5, box6, sel, typed, out)
    requires 0 <= k < |box3.rows| && "BPM" !in box3.columns
    ensures Get(out.rows[k], "bpm") == Missing
  {
    CleanedBpm(box3, box5, box6, k);
    TypedBpm(box6, sel, typed, out, k);
  }

  /** A BPM column the headed frame lacks is added as NaN. */
  lemma CleanedBpm(box3: Frame, box5: Frame, box6: Frame, k: int)
    requires MapColumn(ReplaceCells(box3, Scrub), "MP", MinutesPlayed) == Success(box5)
    requires ("BPM" in box5.columns && box6 == box5)
      || ("BPM" !in box5.columns && Insert(box5, 38, "BPM", Missing) == Success(box6))
    requires 0 <= k < |box3.rows| && "BPM" !in box3.columns
    ensures |box6.rows| == |box3.rows| && Get(box6.rows[k], "BPM") == Missing
  {
    CleanedCells(box3, box5, box6);
  }

  /** The output bpm cell is the BPM cell converted to float. */
  lemma TypedBpm(box6: Frame, sel: Frame, typed: Frame, out: Frame, k: int)
    requires Select(box6, Keys) == Success(sel)
    requires AsType(sel, Kinds, Convert) == Success(typed)
    requires out == Relabel(typed, Lower)
    requires 0 <= k < |box6.rows|
    ensures Success(Get(out.rows[k], "bpm")) == Convert(Float, Get(box6.rows[k], "BPM"))
  {
    KeysKinds();
    OwnOutputs();
    OwnKeys();
    TypedCell(box6, sel, typed, out, Keys, Kinds, k, "BPM");
  }

  /** A joined cell, alone under its heading, moves to that heading. */
  lemma HeadCell(gameId: string, box: Frame, box1: Frame, box3: Frame, k: int, d: string)
    requires HeadSteps(gameId, box, box1, box3)
    requires 0 <= k < |box.rows| && Alone(box.columns, Heading, d)
    requires Heading(d) != "GAME_ID" && Heading(d) != "+/-" && Heading(d) != "PLUS_MINUS"
    ensures |box3.rows| == |box.rows| && Heading(d) in box3.columns && Get(box3.rows[k], Heading(d)) == Get(box.rows[k], d)
  {
    InsertedId(box, gameId, box1);
    HeadedCells(box1, box3);
    OwnHeadings();
  }

  /** The inserted game id stays under GAME_ID. */
  lemma HeadId(gameId: string, box: Frame, box1: Frame, box3: Frame, k: int)
    requires HeadSteps(gameId, box, box1, box3)
    requires 0 <= k < |box.rows| && Fresh(box.columns, "GAME_ID")
    ensures |box3.rows| == |box.rows| && "GAME_ID" in box3.columns && Get(box3.rows[k], "GAME_ID") == Text(gameId)
  {
    InsertedId(box, gameId, box1);
    HeadedCells(box1, box3);
    OwnHeadings();
  }

  /** The `+/-` cell moves to PLUS_MINUS. */
  lemma HeadPlusMinus(gameId: string, box: Frame, box1: Frame, box3: Frame, k: int)
    requires HeadSteps(gameId, box, box1, box3)
    requires 0 <= k < |box.rows| && Alone(box.columns, Heading, "+/-") && Fresh(box.columns, "PLUS_MINUS")
    ensures |box3.rows| == |box.rows| && "PLUS_MINUS" in box3.columns && Get(box3.rows[k], "PLUS_MINUS") == Get(box.rows[k], "+/-")
  {
    InsertedId(box, gameId, box1);
    HeadedCells(box1, box3);
    OwnHeadings();
    assert Alone(box1.columns, Heading, "+/-") && Fresh(box1.columns, "PLUS_MINUS");
  }

  /** A heading no label reaches is not a label of the headed frame. */
  lemma HeadFresh(gameId: string, box: Frame, box1: Frame, box3: Frame, n: string)
    requires HeadSteps(gameId, box, box1, box3)
    requires Fresh(box.columns, n) && n != "GAME_ID" && n != "PLUS_MINUS"
    ensures |box3.rows| == |box.rows| && n !in box3.columns
  {
    InsertedId(box, gameId, box1);
    HeadedCells(box1, box3);
  }

  /** A carried column's cells are its joined cells, scrubbed and converted. */
  lemma FinishCarried(gameId: string, box: Frame, box1: Frame, box3: Frame, box5: Frame, box6: Frame, sel: Frame, typed: Frame, out: Frame)
    requires HeadSteps(gameId, box, box1, box3) && LaterSteps(box3, box5, box6, sel, typed, out)
    ensures forall k, d :: 0 <= k < |box.rows| && Carried(box.columns, d) ==>
      Success(Get(out.rows[k], Lower(Heading(d)))) == Convert(KindOf(Heading(d)), Scrub(Get(box.rows[k], d)))
  {
    forall k, d | 0 <= k < |box.rows| && Carried(box.columns, d)
      ensures Success(Get(out.rows[k], Lower(Heading(d)))) == Convert(KindOf(Heading(d)), Scrub(Get(box.rows[k], d)))
    {
      PlusMinusNotKey();
      HeadCell(gameId, box, box1, box3, k, d);
      LaterCell(box3, box5, box6, sel, typed, out, k, Heading(d));
    }
  }

  /** A game id that is no sentinel is kept as text. */
  lemma IdConverted(gameId: string)
    requires !IsSentinel(gameId)
    ensures Convert(Str, Scrub(Text(gameId))) == Success(Text(gameId))
  {
  }

  /** Every row's game_id is the game's id. */
  lemma FinishId(gameId: string, box: Frame, box1: Frame, box3: Frame, box5: Frame, box6: Frame, sel: Frame, typed: Frame, out: Frame)
    requires HeadSteps(gameId, box, box1, box3) && LaterSteps(box3, box5, box6, sel, typed, out)
    requires Fresh(box.columns, "GAME_ID") && !IsSentinel(gameId)
    ensures forall k :: 0 <= k < |box.rows| ==> Get(out.rows[k], "game_id") == Text(gameId)
  {
    IdConverted(gameId);
    forall k | 0 <= k < |box.rows| ensures Get(out.rows[k], "game_id") == Text(gameId) {
      HeadId(gameId, box, box1, box3, k);
      LaterId(box3, box5, box6, sel, typed, out, k);
    }
  }

  /** Every row's mp is its MP cell read as minutes. */
  lemma FinishMinutes(gameId: string, box: Frame, box1: Frame, box3: Frame, box5: Frame, box6: Frame, sel: Frame, typed: Frame, out: Frame)
    requires HeadSteps(gameId, box, box1, box3) && LaterSteps(box3, box5, box6, sel, typed, out)
    ensures forall k, d :: 0 <= k < |box.rows| && Alone(box.columns, Heading, d) && Heading(d) == "MP" ==>
      Success(Get(out.rows[k], "mp")) == MinutesPlayed(Scrub(Get(box.rows[k], d)))
  {
    forall k, d | 0 <= k < |box.rows| && Alone(box.columns, Heading, d) && Heading(d) == "MP"
      ensures Success(Get(out.rows[k], "mp")) == MinutesPlayed(Scrub(Get(box.rows[k], d)))
    {
      HeadCell(gameId, box, box1, box3, k, d);
      LaterMinutes(box3, box5, box6, sel, typed, out, k);
    }
  }

  /** Every row's plus_minus is its `+/-` cell, scrubbed and read as a float. */
  lemma FinishPlusMinus(gameId: string, box: Frame, box1: Frame, box3: Frame, box5: Frame, box6: Frame, sel: Frame, typed: Frame, out: Frame)
    requires HeadSteps(gameId, box, box1, box3) && LaterSteps(box3, box5, box6, sel, typed, out)
    requires Alone(box.columns, Heading, "+/-") && Fresh(box.columns, "PLUS_MINUS")
    ensures forall k :: 0 <= k < |box.rows| ==>
      Success(Get(out.rows[k], "plus_minus")) == Convert(Float, Scrub(Get(box.rows[k], "+/-")))
  {
    forall k | 0 <= k < |box.rows|
      ensures Success(Get(out.rows[k], "plus_minus")) == Convert(Float, Scrub(Get(box.rows[k], "+/-")))
    {
      HeadPlusMinus(gameId, box, box1, box3, k);
      LaterPlusMinus(box3, box5, box6, sel, typed, out, k);
    }
  }

  /** Without a BPM column, every row's bpm is NaN. */
  lemma FinishBpm(gameId: string, box: Frame, box1: Frame, box3: Frame, box5: Frame, box6: Frame, sel: Frame, typed: Frame, out: Frame)
    requires HeadSteps(gameId, box, box1, box3) && LaterSteps(box3, box5, box6, sel, typed, out)
    requires Fresh(box.columns, "BPM")
    ensures forall k :: 0 <= k < |box.rows| ==> Get(out.rows[k], "bpm") == Missing
  {
    HeadFresh(gameId, box, box1, box3, "BPM");
    forall k | 0 <= k < |box.rows| ensures Get(out.rows[k], "bpm") == Missing {
      LaterBpm(box3, box5, box6, sel, typed, out, k);
    }
  }

  /**
   * What lines 145-168 make of the joined frame `box`: the output columns,
   * row for row, each cell typed; every carried cell converted from its
   * scrubbed source cell; the game id on every row; MP read as minutes;
   * `+/-` as plus_minus; and a NaN bpm when the page has no BPM column.
   */
  ghost predicate Finished(gameId: string, box: Frame, out: Frame)
  {
    && out.columns == Output && |out.rows| == |box.rows| && TypedRows(out, Keys)
    && (forall k, d :: 0 <= k < |box.rows| && Carried(box.columns, d) ==>
          Success(Get(out.rows[k], Lower(Heading(d)))) == Convert(KindOf(Heading(d)), Scrub(Get(box.rows[k], d))))
    && (Fresh(box.columns, "GAME_ID") && !IsSentinel(gameId) ==>
          forall k :: 0 <= k < |box.rows| ==> Get(out.rows[k], "game_id") == Text(gameId))
    && (forall k, d :: 0 <= k < |box.rows| && Alone(box.columns, Heading, d) && Heading(d) == "MP" ==>
          Success(Get(out.rows[k], "mp")) == MinutesPlayed(Scrub(Get(box.rows[k], d))))
    && (Alone(box.columns, Heading, "+/-") && Fresh(box.columns, "PLUS_MINUS") ==>
          forall k :: 0 <= k < |box.rows| ==> Success(Get(out.rows[k], "plus_minus")) == Convert(Float, Scrub(Get(box.rows[k], "+/-"))))
    && (Fresh(box.columns, "BPM") ==> forall k :: 0 <= k < |box.rows| ==> Get(out.rows[k], "bpm") == Missing)
  }

  /**
   * Lines 145-168: GAME_ID inserted first, the labels made headings, the
   * sentinels scrubbed, MP read as minutes, BPM added when missing, then the
   * output columns selected, typed and lower-cased.
   */
  /** Lines 145-168 as one value. */
  function FinishOf(gameId: string, box: Frame): Result<Frame, string>
  {
    var box1 :- Insert(box, 0, "GAME_ID", Text(gameId));
    var box3 := Rename(Relabel(box1, Heading), "+/-", "PLUS_MINUS");
    var box5 :- MapColumn(ReplaceCells(box3, Scrub), "MP", MinutesPlayed);
    var box6 :- if "BPM" in box5.columns then Success(box5) else Insert(box5, 38, "BPM", Missing);
    var sel :- Select(box6, Keys);
    var typed :- AsType(sel, Kinds, Convert);
    Success(Relabel(typed, Lower))
  }

  method Finish(gameId: string, box: Frame) returns (r: Result<Frame, string>)
    ensures r == FinishOf(gameId, box)
    ensures "GAME_ID" in box.columns || Fresh(box.columns, "MP") ==> r.Failure?
    ensures r.Success? ==> Finished(gameId, box, r.value)
  {
    var box1 :- Insert(box, 0, "GAME_ID", Text(gameId));
    var box3 := Rename(Relabel(box1, Heading), "+/-", "PLUS_MINUS");
    if Fresh(box.columns, "MP") {
      HeadFresh(gameId, box, box1, box3, "MP");
    }
    var box5 :- MapColumn(ReplaceCells(box3, Scrub), "MP", MinutesPlayed);
    var box6 := box5;
    if "BPM" !in box5.columns {
      box6 :- Insert(box5, 38, "BPM", Missing);
    }
    var sel :- Select(box6, Keys);
    var typed :- AsType(sel, Kinds, Convert);
    var out := Relabel(typed, Lower);
    LaterShape(box3, box5, box6, sel, typed, out);
    FinishCarried(gameId, box, box1, box3, box5, box6, sel, typed, out);
    FinishMinutes(gameId, box, box1, box3, box5, box6, sel, typed, out);
    if Fresh(box.columns, "GAME_ID") && !IsSentinel(gameId) {
      FinishId(gameId, box, box1, box3, box5, box6, sel, typed, out);
    }
    if Alone(box.columns, Heading, "+/-") && Fresh(box.columns, "PLUS_MINUS") {
      FinishPlusMinus(gameId, box, box1, box3, box5, box6, sel, typed, out);
    }
    if Fresh(box.columns, "BPM") {
      FinishBpm(gameId, box, box1, box3, box5, box6, sel, typed, out);
    }
    return Success(out);
  }


  /**
   * `get_boxscore` (lines 83-170) on the page already fetched: the comment
   * markers are deleted, the tables joined, and the output made. `joined`
   * names the intermediate joined frame, so that the result can be stated
   * row for row against it: the teams come from the line score, every row
   * is tagged, quarters sit on the `All` rows only, and each output cell is
   * the converted cell of its joined row, under the game id.
   */
  /** Lines 83-170 as one value, on the page already fetched. */
  function BoxscoreOf(gameId: string, page: string, read: Reader, fold: char -> string): Result<Frame, string>
  {
    var j :- JoinOf(read, StripComments(page), fold);
    FinishOf(gameId, j.box)
  }

  method GetBoxscore(gameId: string, page: string, read: Reader, fold: char -> string)
    returns (r: Result<Frame, string>, ghost joined: Joined)
    ensures r == BoxscoreOf(gameId, page, read, fold)
    ensures r.Success? ==> JoinOf(read, StripComments(page), fold) == Success(joined) && FinishOf(gameId, joined.box) == r
    ensures read(StripComments(page), "line_score").None? ==> r.Failure?
    ensures r.Success? ==> JoinedFrom(read, StripComments(page), fold, joined)
    ensures r.Success? ==> "GAME_ID" !in joined.box.columns && !Fresh(joined.box.columns, "MP")
    ensures r.Success? ==> Finished(gameId, joined.box, r.value)
  {
    var html := StripComments(page);
    var j := JoinTables(read, html, fold);
    if j.Failure? {
      r, joined := Failure(j.error), Joined(Frame([], []), "", "");
      return;
    }
    joined := j.value;
    r := Finish(gameId, j.value.box);
  }

}
