// The season schedule of one team (`get_schedule` in src/nba/schedule.py):
// the `games` table of `/teams/<team>/<season>_games.html`, with its repeated
// header rows removed and its columns normalised one rule at a time.
module Schedule {
  import opened Wrappers
  import opened Text
  import Teams

  /**
   * One row of the `games` table once the four empty columns are dropped
   * and the remaining eleven renamed; a blank cell is None.
   */
  datatype RawRow = RawRow(
    gameNumber: Option<string>,
    date: Option<string>,
    time: Option<string>,
    isHome: Option<string>,
    opponent: Option<string>,
    outcome: Option<string>,
    teamPoints: Option<string>,
    opponentPoints: Option<string>,
    cumulativeWins: Option<string>,
    cumulativeLosses: Option<string>,
    streak: Option<string>)

  datatype Date = Date(year: nat, month: nat, day: nat)

  /** A point in time to the minute, on the 24-hour clock. */
  datatype Timestamp = Timestamp(date: Date, hour: nat, minute: nat)

  /** The `is_home` column after its replacement: the two sentinels become flags, other text is kept. */
  datatype HomeCell = Flag(home: bool) | Verbatim(text: string)

  /**
   * One row of the returned frame, in its column order; `datetime` None is
   * a missing time (NaT), `gameId` None a missing home team.
   */
  datatype Game = Game(
    gameNumber: Option<string>,
    gameId: Option<string>,
    datetime: Option<Timestamp>,
    isHome: HomeCell,
    team: string,
    opponent: Option<string>,
    outcome: Option<string>,
    teamPoints: Option<string>,
    opponentPoints: Option<string>,
    cumulativeWins: Option<string>,
    cumulativeLosses: Option<string>,
    streak: int)

  // ---------------------------------------------------------------------
  // Repeated header rows

  /** The table repeats its header every twenty games; those rows read `G` in the first column. */
  predicate IsHeader(row: RawRow) { row.gameNumber == Some("G") }

  /** `df[df.game_number != 'G']`: a blank game number is kept. */
  function Games(rows: seq<RawRow>): (r: seq<RawRow>)
    ensures |r| <= |rows|
    ensures forall x :: x in r <==> x in rows && !IsHeader(x)
    ensures (forall k :: 0 <= k < |rows| ==> !IsHeader(rows[k])) ==> r == rows
  {
    if rows == [] then []
    else if IsHeader(rows[0]) then Games(rows[1..])
    else [rows[0]] + Games(rows[1..])
  }

  /** Header rows are removed and every other row is kept with its neighbours in order. */
  lemma {:induction false} GamesAppend(a: seq<RawRow>, b: seq<RawRow>)
    ensures Games(a + b) == Games(a) + Games(b)
  {
    if a == [] {
      assert a + b == b;
    } else {
      assert (a + b)[1..] == a[1..] + b;
      GamesAppend(a[1..], b);
    }
  }

  // ---------------------------------------------------------------------
  // Dates and clock times

  /** A calendar date pandas can hold, written with a four-digit year. */
  predicate ValidDate(d: Date) { d.year < 10000 && 1 <= d.month <= 12 && 1 <= d.day <= 31 }

  /** `date.astype(str)`: the ISO form `YYYY-MM-DD`. */
  function DateText(d: Date): string
  {
    Pad(d.year, 4) + "-" + Pad(d.month, 2) + "-" + Pad(d.day, 2)
  }

  /** `(time + 'm').str.upper()`: a missing time stays missing. */
  function Clock(time: Option<string>): (r: Option<string>)
    ensures r.Some? <==> time.Some?
    ensures r.Some? ==> |r.value| == |time.value| + 1 && r.value[|time.value|] == 'M'
  {
    match time
    case None => None
    case Some(t) => Some(Upper(t + "m"))
  }

  /** The hour on a twelve-hour dial, as `%I` reads and writes it. */
  function Hour12(h: nat): (r: nat)
    ensures 1 <= r <= 12
  {
    if h % 12 == 0 then 12 else h % 12
  }

  /**
   * The time part of the `%I:%M%p` format: one or two digits for an hour
   * from 1 to 12, a colon, one or two digits for a minute below 60, then
   * `AM` or `PM`; the result is (hour on the 24-hour clock, minute).
   * Anything else is None, where `to_datetime` raises ValueError.
   */
  function ParseClock(c: string): (r: Option<(nat, nat)>)
    ensures r.Some? ==> r.value.0 < 24 && r.value.1 < 60
  {
    var h := DigitPrefix(c);
    if |h| < 1 || |h| > 2 || |c| == |h| || c[|h|] != ':' || NatValue(h) < 1 || NatValue(h) > 12 then None
    else MinuteAndHalf(NatValue(h), c[|h| + 1..])
  }

  /** What follows the colon: one or two digits for a minute below 60, then `AM` or `PM`. */
  function MinuteAndHalf(hour: nat, rest: string): (r: Option<(nat, nat)>)
    requires 1 <= hour <= 12
    ensures r.Some? ==> r.value.0 < 24 && r.value.1 < 60
  {
    var m := DigitPrefix(rest);
    var p := rest[|m|..];
    if |m| < 1 || |m| > 2 || NatValue(m) > 59 then None
    else if p == "AM" then Some((hour % 12, NatValue(m)))
    else if p == "PM" then Some((hour % 12 + 12, NatValue(m)))
    else None
  }

  /** The upper-cased spelling of a 24-hour time, as `%I:%M%p` writes it. */
  function ClockText(h: nat, m: nat): string
  {
    Decimal(Hour12(h)) + ":" + Pad(m, 2) + (if h < 12 then "AM" else "PM")
  }

  /** A clock reading split at its first non-digit. */
  lemma DigitsThen(ds: string, rest: string)
    requires IsDigits(ds) && |rest| > 0 && !IsDigit(rest[0])
    ensures DigitPrefix(ds + rest) == ds && (ds + rest)[|ds|..] == rest
  {
    var c := ds + rest;
    assert c[..|ds|] == ds;
    DigitPrefixBefore(c, |ds|);
  }

  /** One or two digits for the hour, a colon, one or two for the minute, and a suffix. */
  lemma {:induction false} ParseClockOf(hd: string, md: string, suffix: string)
    requires IsDigits(hd) && |hd| <= 2 && 1 <= NatValue(hd) <= 12
    requires IsDigits(md) && |md| <= 2 && NatValue(md) <= 59
    requires suffix == "AM" || suffix == "PM"
    ensures ParseClock(hd + (":" + (md + suffix)))
      == Some((if suffix == "AM" then NatValue(hd) % 12 else NatValue(hd) % 12 + 12, NatValue(md)))
  {
    var rest := md + suffix;
    var tail := ":" + rest;
    assert tail[0] == ':' && tail[1..] == rest;
    DigitsThen(hd, tail);
    SliceAfter(hd + tail, |hd|, tail);
    ParseClockSplit(hd + tail, hd, rest);
    MinuteAndHalfOf(NatValue(hd), md, suffix);
  }

  lemma SliceAfter(c: string, i: nat, tail: string)
    requires i <= |c| && c[i..] == tail && |tail| > 0
    ensures i < |c| && c[i] == tail[0] && c[i + 1..] == tail[1..]
  {
    assert c[i] == c[i..][0];
  }

  lemma ParseClockSplit(c: string, hd: string, rest: string)
    requires DigitPrefix(c) == hd && 1 <= |hd| <= 2 && 1 <= NatValue(hd) <= 12
    requires |hd| < |c| && c[|hd|] == ':' && c[|hd| + 1..] == rest
    ensures ParseClock(c) == MinuteAndHalf(NatValue(hd), rest)
  {
  }

  lemma MinuteAndHalfOf(hour: nat, md: string, suffix: string)
    requires 1 <= hour <= 12
    requires IsDigits(md) && |md| <= 2 && NatValue(md) <= 59
    requires suffix == "AM" || suffix == "PM"
    ensures MinuteAndHalf(hour, md + suffix)
      == Some((if suffix == "AM" then hour % 12 else hour % 12 + 12, NatValue(md)))
  {
    DigitsThen(md, suffix);
  }

  /** The hour as `%I` writes it: one or two digits for a value from 1 to 12. */
  lemma HourDigits(h: nat)
    ensures var hd := Decimal(Hour12(h)); IsDigits(hd) && |hd| <= 2 && NatValue(hd) == Hour12(h)
  {
    DecimalShort(Hour12(h));
    DecimalValue(Hour12(h));
  }

  /** The morning and afternoon halves of the dial give the 24-hour clock back. */
  lemma HourBack(h: nat)
    requires h < 24
    ensures (if h < 12 then Hour12(h) % 12 else Hour12(h) % 12 + 12) == h
  {
  }

  /** Every valid time reads back from its spelling. */
  lemma ParseClockText(h: nat, m: nat)
    requires h < 24 && m < 60
    ensures ParseClock(ClockText(h, m)) == Some((h, m))
  {
    var hd := Decimal(Hour12(h));
    var md := Pad(m, 2);
    var suffix := if h < 12 then "AM" else "PM";
    HourDigits(h);
    DecimalShort(m);
    HourBack(h);
    ClockTextParts(h, m);
    ParseClockOf(hd, md, suffix);
  }

  lemma ClockTextParts(h: nat, m: nat)
    ensures ClockText(h, m) == Decimal(Hour12(h)) + (":" + (Pad(m, 2) + (if h < 12 then "AM" else "PM")))
  {
    var hd, md, suffix := Decimal(Hour12(h)), Pad(m, 2), if h < 12 then "AM" else "PM";
    assert hd + ":" + md + suffix == hd + (":" + (md + suffix));
  }

  /** How the page spells a time: `7:30p` for 19:30. */
  function SiteTime(h: nat, m: nat): string
  {
    Decimal(Hour12(h)) + ":" + Pad(m, 2) + (if h < 12 then "a" else "p")
  }

  lemma UpperSiteTime(h: nat, m: nat)
    ensures Upper(SiteTime(h, m) + "m") == ClockText(h, m)
  {
    var a := Decimal(Hour12(h)) + ":" + Pad(m, 2);
    var s := SiteTime(h, m) + "m";
    var u := Upper(s);
    var t := ClockText(h, m);
    assert |u| == |t| == |a| + 2;
    forall i | 0 <= i < |a| ensures u[i] == t[i] {
      assert s[i] == a[i] && t[i] == a[i];
      assert IsDigit(a[i]) || a[i] == ':';
    }
    assert u[|a|] == t[|a|];
    assert u[|a| + 1] == t[|a| + 1];
  }

  /** A time as the page spells it, once suffixed and upper-cased, parses to that time. */
  lemma ClockOfSiteTime(h: nat, m: nat)
    requires h < 24 && m < 60
    ensures Clock(Some(SiteTime(h, m))) == Some(ClockText(h, m))
    ensures ParseClock(ClockText(h, m)) == Some((h, m))
  {
    UpperSiteTime(h, m);
    ParseClockText(h, m);
  }

  /** `7:30p` becomes `7:30PM`, which is 19:30. */
  lemma SevenThirty()
    ensures Clock(Some("7:30p")) == Some("7:30PM")
    ensures ParseClock("7:30PM") == Some((19, 30))
  {
    assert Decimal(7) == "7";
    assert Decimal(30) == "30";
    DecimalShort(30);
    assert SiteTime(19, 30) == "7:30p";
    assert ClockText(19, 30) == "7:30PM";
    ClockOfSiteTime(19, 30);
  }

  /**
   * The `datetime` column for one row: the date (None for NaT) and the
   * clock time parsed together. A missing time makes the joined text NaN,
   * which gives NaT (Some(None)); a present time after a NaT date reads
   * `NaT h:mmPM`, which does not match the format, and a malformed time
   * does not either: both are None, where `to_datetime` raises.
   */
  function StampOf(date: Option<Date>, clock: Option<string>): (r: Option<Option<Timestamp>>)
    ensures r.Some? <==> clock.None? || (date.Some? && ParseClock(clock.value).Some?)
    ensures r.Some? && r.value.Some? ==>
      date.Some? && r.value.value.date == date.value && r.value.value.hour < 24 && r.value.value.minute < 60
  {
    match clock
    case None => Some(None)
    case Some(c) =>
      if date.None? then None
      else
        match ParseClock(c)
        case None => None
        case Some(hm) => Some(Some(Timestamp(date.value, hm.0, hm.1)))
  }

  // ---------------------------------------------------------------------
  // Home flag, streak, opponent and game id

  /** `is_home.replace({'@': False, NA: True})`. */
  function HomeFlag(cell: Option<string>): (r: HomeCell)
    ensures r == Flag(true) <==> cell.None?
    ensures r == Flag(false) <==> cell == Some("@")
    ensures r.Verbatim? <==> cell.Some? && cell.value != "@"
  {
    match cell
    case None => Flag(true)
    case Some(s) => if s == "@" then Flag(false) else Verbatim(s)
  }

  /** The truth value `np.where` gives a cell: a flag as it is, text when it is not empty. */
  predicate Truthy(h: HomeCell)
  {
    match h
    case Flag(b) => b
    case Verbatim(s) => |s| > 0
  }

  /** `np.where(is_home, team, opponent)`. */
  function HomeTeam(team: string, h: HomeCell, opponent: Option<string>): Option<string>
  {
    if Truthy(h) then Some(team) else opponent
  }

  /** A blank cell makes the requested team the home team, an `@` the opponent. */
  lemma HomeTeamOfCell(team: string, cell: Option<string>, opponent: Option<string>)
    ensures cell.None? ==> HomeTeam(team, HomeFlag(cell), opponent) == Some(team)
    ensures cell == Some("@") ==> HomeTeam(team, HomeFlag(cell), opponent) == opponent
    ensures cell.Some? && cell.value != "@" && cell.value != "" ==> HomeTeam(team, HomeFlag(cell), opponent) == Some(team)
  {
  }

  /**
   * `streak.str.replace('L ', '-').str.replace('W ', '').astype(int)`; None
   * where the conversion raises (a blank cell, or text that is not an integer).
   */
  function Streak(cell: Option<string>): (r: Option<int>)
    ensures cell.None? ==> r.None?
  {
    match cell
    case None => None
    case Some(s) => ParseInt(Replace(Replace(s, "L ", "-"), "W ", ""))
  }

  /** How the page writes a streak of `k` games: `W 3` for three wins, `L 2` for two losses. */
  function StreakText(k: int): string
  {
    if k >= 0 then "W " + Decimal(k) else "L " + Decimal(-k)
  }

  lemma NoLetters(d: string)
    requires AllDigits(d)
    ensures forall i :: 0 <= i < |d| ==> d[i] != 'L' && d[i] != 'W' && d[i] != ' '
  {
  }

  lemma StreakOfWins(n: nat)
    ensures Streak(Some("W " + Decimal(n))) == Some(n)
  {
    var d := Decimal(n);
    NoLetters(d);
    var s := "W " + d;
    assert s == "W" + (" " + d);
    ReplaceAppendNo("W", " " + d, "L ", "-");
    ReplaceNoFirst(" " + d, "L ", "-");
    ReplaceWhole("W ", d, "");
    ReplaceNoFirst(d, "W ", "");
    assert "" + d == d;
    ParseIntDecimal(n);
  }

  lemma StreakOfLosses(n: nat)
    ensures Streak(Some("L " + Decimal(n))) == Some(0 - n)
  {
    var d := Decimal(n);
    NoLetters(d);
    ReplaceWhole("L ", d, "-");
    ReplaceNoFirst(d, "L ", "-");
    ReplaceNoFirst("-" + d, "W ", "");
    ParseIntDecimal(n);
  }

  /** The streak column reads back every streak the page writes. */
  lemma StreakRoundTrip(k: int)
    ensures Streak(Some(StreakText(k))) == Some(k)
  {
    if k >= 0 {
      StreakOfWins(k);
    } else {
      StreakOfLosses(-k);
    }
  }

  /** `opponent.replace(team_abbr)`: a franchise name becomes its code, anything else is kept. */
  function Opponent(cell: Option<string>): (r: Option<string>)
    ensures r.None? <==> cell.None?
  {
    match cell
    case None => None
    case Some(s) => if s in Teams.TeamAbbr then Some(Teams.TeamAbbr[s]) else cell
  }

  /** Franchise names become three-letter codes, distinct names distinct codes. */
  lemma OpponentCodes(a: string, b: string)
    requires a in Teams.TeamAbbr && b in Teams.TeamAbbr
    ensures |Opponent(Some(a)).value| == 3
    ensures forall i :: 0 <= i < 3 ==> Teams.IsUpper(Opponent(Some(a)).value[i])
    ensures a != b ==> Opponent(Some(a)) != Opponent(Some(b))
  {
    Teams.AbbrCodesShape();
    Teams.AbbrInjective();
  }

  /** Text that is not a franchise name passes through. */
  lemma OpponentKept(s: string)
    requires s !in Teams.TeamAbbr
    ensures Opponent(Some(s)) == Some(s)
  {
  }

  lemma PelicansOpponent()
    ensures Opponent(Some("New Orleans Pelicans")) == Some("NOP")
  {
    Teams.AbbrAt(21);
  }

  /** `astype(str)` of a parsed date cell: a date in ISO form, NaT as `NaT`. */
  function DateCellText(date: Option<Date>): string
  {
    match date
    case None => "NaT"
    case Some(d) => DateText(d)
  }

  /** `date.astype(str).str.replace('-', '') + '0' + team_home`. */
  function GameId(date: Option<Date>, home: Option<string>): (r: Option<string>)
    ensures r.Some? <==> home.Some?
  {
    match home
    case None => None
    case Some(h) => Some(Replace(DateCellText(date), "-", "") + "0" + h)
  }

  /** A blank date cell, NaT once parsed, gives the game id `NaT0` and the home team. */
  lemma NaTGameId(home: string)
    ensures GameId(None, Some(home)) == Some("NaT0" + home)
  {
    ReplaceNoFirst("NaT", "-", "");
    assert DateCellText(None) == "NaT";
    assert "NaT" + "0" + home == "NaT0" + home;
  }

  /** Deleting the dashes of `a-b-c` where none of the parts has one. */
  lemma NoDashes(a: string, b: string, c: string)
    requires AllDigits(a) && AllDigits(b) && AllDigits(c)
    ensures Replace(a + "-" + b + "-" + c, "-", "") == a + b + c
  {
    ReplaceJoins(a, b, c, "-", "");
    JoinsEmpty(a, b, c);
  }

  lemma DateDigits(d: Date)
    ensures Replace(DateText(d), "-", "") == Pad(d.year, 4) + Pad(d.month, 2) + Pad(d.day, 2)
  {
    NoDashes(Pad(d.year, 4), Pad(d.month, 2), Pad(d.day, 2));
  }

  /**
   * The game id reads `YYYYMMDD`, then `0`, then the home team: its first
   * eight characters are digits giving back the date.
   */
  lemma GameIdLayout(d: Date, home: string, id: string)
    requires ValidDate(d) && GameId(Some(d), Some(home)) == Some(id)
    ensures |id| == 9 + |home| && AllDigits(id[..8])
      && AllDigits(id[..4]) && AllDigits(id[4..6]) && AllDigits(id[6..8])
      && NatValue(id[..4]) == d.year && NatValue(id[4..6]) == d.month && NatValue(id[6..8]) == d.day
      && id[8] == '0' && id[9..] == home
  {
    DecimalShort(d.year);
    DecimalShort(d.month);
    DecimalShort(d.day);
    DateDigits(d);
    var y, m, dd := Pad(d.year, 4), Pad(d.month, 2), Pad(d.day, 2);
    IdSlices(y, m, dd, home);
    DigitsJoined(y, m, dd);
  }

  /** Where the parts sit in `y + m + dd + "0" + home` when they are 4, 2 and 2 long. */
  lemma IdSlices(y: string, m: string, dd: string, home: string)
    requires |y| == 4 && |m| == 2 && |dd| == 2
    ensures var id := y + m + dd + "0" + home;
      |id| == 9 + |home| && id[..4] == y && id[4..6] == m && id[6..8] == dd
      && id[..8] == y + m + dd && id[8] == '0' && id[9..] == home
  {
  }

  lemma DigitsJoined(y: string, m: string, dd: string)
    requires AllDigits(y) && AllDigits(m) && AllDigits(dd)
    ensures AllDigits(y + m + dd)
  {
    var s := y + m + dd;
    forall i | 0 <= i < |s| ensures IsDigit(s[i]) {
      if i < |y| { assert s[i] == y[i]; }
      else if i < |y| + |m| { assert s[i] == m[i - |y|]; }
      else { assert s[i] == dd[i - |y| - |m|]; }
    }
  }

  lemma PadYear()
    ensures Pad(2018, 4) == "2018"
  {
    assert Decimal(20) == "20";
    assert Decimal(201) == "201";
    assert Decimal(2018) == "2018";
  }

  lemma PadMonthDay()
    ensures Pad(10, 2) == "10" && Pad(16, 2) == "16"
  {
    assert Decimal(10) == "10";
    assert Decimal(16) == "16";
  }

  /** The home game of the Pelicans on 16 October 2018. */
  lemma PelicansOpener()
    ensures GameId(Some(Date(2018, 10, 16)), Some("NOP")) == Some("201810160NOP")
  {
    PadYear();
    PadMonthDay();
    DateDigits(Date(2018, 10, 16));
    assert "2018" + "10" + "16" + "0" + "NOP" == "201810160NOP";
  }

  // ---------------------------------------------------------------------
  // The frame

  /**
   * A column conversion that raises as soon as one cell does not convert
   * (`to_datetime`, `astype(int)`): None of `f` is that cell's error.
   */
  function Column<A, B>(xs: seq<A>, f: A -> Option<B>): (r: Result<seq<B>, string>)
    ensures r.Success? <==> forall k :: 0 <= k < |xs| ==> f(xs[k]).Some?
    ensures r.Success? ==> |r.value| == |xs| && forall k :: 0 <= k < |xs| ==> f(xs[k]) == Some(r.value[k])
  {
    if exists k :: 0 <= k < |xs| && f(xs[k]).None? then Failure("ValueError")
    else Success(seq(|xs|, k requires 0 <= k < |xs| => f(xs[k]).value))
  }

  /**
   * `pd.to_datetime(df.date)` on one cell: a blank cell becomes NaT
   * (Some(None)), and text that is not a date raises (None).
   */
  function DateOf(parseDate: string -> Option<Date>, cell: Option<string>): (r: Option<Option<Date>>)
    ensures cell.None? ==> r == Some(None)
    ensures cell.Some? ==> (r.Some? <==> parseDate(cell.value).Some?)
    ensures cell.Some? && r.Some? ==> r.value == parseDate(cell.value)
  {
    match cell
    case None => Some(None)
    case Some(s) =>
      match parseDate(s)
      case None => None
      case Some(d) => Some(Some(d))
  }

  /**
   * The time column as read, header rows included, holds no text, so pandas
   * gives it a numeric dtype and `df.time + 'm'` (line 44) raises TypeError.
   */
  predicate TimesNumeric(raw: seq<RawRow>)
  {
    |raw| > 0 && forall k :: 0 <= k < |raw| ==> NoText(raw[k].time)
  }

  /** The same of the streak column, on which `.str.replace` (line 57) raises AttributeError. */
  predicate StreaksNumeric(raw: seq<RawRow>)
  {
    |raw| > 0 && forall k :: 0 <= k < |raw| ==> NoText(raw[k].streak)
  }

  /** The time or the streak column holds no text. */
  predicate ColumnsNumeric(raw: seq<RawRow>) { TimesNumeric(raw) || StreaksNumeric(raw) }

  /** A row on which one of the conversions raises. */
  predicate Unreadable(parseDate: string -> Option<Date>, row: RawRow)
  {
    DateOf(parseDate, row.date).None?
    || StampOf(DateOf(parseDate, row.date).value, Clock(row.time)).None?
    || Streak(row.streak).None?
  }

  /**
   * A row with a blank date raises only when its time is present (the
   * joined text `NaT h:mmPM` does not parse) or its streak is unreadable.
   */
  lemma BlankDate(parseDate: string -> Option<Date>, row: RawRow)
    requires row.date.None?
    ensures Unreadable(parseDate, row) <==> row.time.Some? || Streak(row.streak).None?
  {
  }

  /** Such a row is returned with a NaT datetime and a game id starting `NaT0`. */
  lemma BlankDateGame(team: string, parseDate: string -> Option<Date>, row: RawRow, g: Game)
    requires row.date.None? && Normalised(team, parseDate, row, g)
    ensures g.datetime.None?
    ensures g.gameId.Some? ==> g.gameId == Some("NaT0" + HomeTeam(team, g.isHome, g.opponent).value)
  {
    if g.gameId.Some? {
      NaTGameId(HomeTeam(team, g.isHome, g.opponent).value);
    }
  }

  /**
   * How one returned row relates to its table row: the date and the time
   * parsed together, the sentinels of `is_home` turned into flags, the
   * requested team inserted, the opponent coded, the streak signed and the
   * game id built from the date and the home team; the other cells pass
   * through.
   */
  predicate Normalised(team: string, parseDate: string -> Option<Date>, row: RawRow, g: Game)
  {
    && DateOf(parseDate, row.date).Some?
    && var d := DateOf(parseDate, row.date).value;
    && Some(g.datetime) == StampOf(d, Clock(row.time))
    && g.isHome == HomeFlag(row.isHome)
    && g.team == team
    && g.opponent == Opponent(row.opponent)
    && Streak(row.streak) == Some(g.streak)
    && g.gameId == GameId(d, HomeTeam(team, g.isHome, g.opponent))
    && g.gameNumber == row.gameNumber && g.outcome == row.outcome
    && g.teamPoints == row.teamPoints && g.opponentPoints == row.opponentPoints
    && g.cumulativeWins == row.cumulativeWins && g.cumulativeLosses == row.cumulativeLosses
  }

  /**
   * `pd.to_datetime(df.date + ' ' + time)`: the parsed dates and the clock
   * times read together, row by row; one that does not parse fails the column.
   */
  function Stamps(df: seq<RawRow>, date: seq<Option<Date>>): (r: Result<seq<Option<Timestamp>>, string>)
    requires |date| == |df|
    ensures r.Failure? <==> exists k :: 0 <= k < |df| && StampOf(date[k], Clock(df[k].time)).None?
    ensures r.Success? ==> |r.value| == |df| && forall k :: 0 <= k < |df| ==> StampOf(date[k], Clock(df[k].time)) == Some(r.value[k])
  {
    var time := seq(|df|, k requires 0 <= k < |df| => Clock(df[k].time));
    var pairs := seq(|df|, k requires 0 <= k < |df| => (date[k], time[k]));
    assert forall k :: 0 <= k < |df| ==> pairs[k] == (date[k], Clock(df[k].time));
    Column(pairs, (p: (Option<Date>, Option<string>)) => StampOf(p.0, p.1))
  }

  /**
   * The columns that cannot fail, `is_home`, `opponent`, `team_home` and
   * `game_id`, rebuilt beside the parsed dates, datetimes and streaks, and
   * the frame put back together.
   */
  function Rebuilt(team: string, parseDate: string -> Option<Date>, df: seq<RawRow>,
                   date: seq<Option<Date>>, datetime: seq<Option<Timestamp>>, streak: seq<int>): (out: seq<Game>)
    requires |date| == |df| && |datetime| == |df| && |streak| == |df|
    requires forall k :: 0 <= k < |df| ==> DateOf(parseDate, df[k].date) == Some(date[k])
    requires forall k :: 0 <= k < |df| ==> StampOf(date[k], Clock(df[k].time)) == Some(datetime[k])
    requires forall k :: 0 <= k < |df| ==> Streak(df[k].streak) == Some(streak[k])
    ensures |out| == |df|
    ensures forall k :: 0 <= k < |df| ==> Normalised(team, parseDate, df[k], out[k]) && !Unreadable(parseDate, df[k])
  {
    seq(|df|, k requires 0 <= k < |df| => RebuiltRow(team, df[k], date[k], datetime[k], streak[k]))
  }

  /** One row of `Rebuilt`. */
  function RebuiltRow(team: string, row: RawRow, date: Option<Date>, datetime: Option<Timestamp>, streak: int): Game
  {
    var isHome := HomeFlag(row.isHome);
    var opponent := Opponent(row.opponent);
    Game(row.gameNumber, GameId(date, HomeTeam(team, isHome, opponent)), datetime, isHome, team, opponent,
         row.outcome, row.teamPoints, row.opponentPoints, row.cumulativeWins, row.cumulativeLosses, streak)
  }

  /**
   * `get_schedule(team, season)` once the page is fetched: `parse` stands
   * for reading the `games` table out of the page and `parseDate` for
   * `pd.to_datetime` on one date cell. The header rows go, and the columns
   * are rebuilt by `Normalise`, told whether the time and the streak
   * columns as read hold text.
   */
  method GetSchedule(team: string, html: string, parse: string -> seq<RawRow>, parseDate: string -> Option<Date>)
    returns (r: Result<seq<Game>, string>)
    ensures var raw := parse(StripComments(html)); var games := Games(raw);
      r.Failure? <==> ColumnsNumeric(raw) || exists k :: 0 <= k < |games| && Unreadable(parseDate, games[k])
    ensures var games := Games(parse(StripComments(html)));
      r.Success? ==> (|r.value| == |games| && forall k :: 0 <= k < |games| ==> Normalised(team, parseDate, games[k], r.value[k]))
  {
    var raw := parse(StripComments(html));
    var df := Games(raw);
    r := Normalise(team, df, parseDate, TimesNumeric(raw), StreaksNumeric(raw));
    assert raw == parse(StripComments(html)) && df == Games(raw);
  }

  /**
   * Lines 42-70 on the games: each column is rebuilt in turn, as the frame
   * is, and any conversion that raises fails the whole call. `timesNumeric`
   * and `streaksNumeric` say that the time or the streak column was read
   * with a numeric dtype, so that `+ 'm'` (line 44) or `.str` (line 57)
   * raises there.
   */
  method Normalise(team: string, df: seq<RawRow>, parseDate: string -> Option<Date>, timesNumeric: bool, streaksNumeric: bool)
    returns (r: Result<seq<Game>, string>)
    ensures r.Failure? <==> timesNumeric || streaksNumeric || exists k :: 0 <= k < |df| && Unreadable(parseDate, df[k])
    ensures r.Success? ==> (|r.value| == |df| && forall k :: 0 <= k < |df| ==> Normalised(team, parseDate, df[k], r.value[k]))
  {
    var dateColumn := Column(df, (row: RawRow) => DateOf(parseDate, row.date));
    if dateColumn.Failure? {
      var k :| 0 <= k < |df| && DateOf(parseDate, df[k].date).None?;
      assert Unreadable(parseDate, df[k]);
      return Failure(dateColumn.error);
    }
    var date := dateColumn.value;
    if timesNumeric {
      return Failure("TypeError: unsupported operand type(s) for +: 'float' and 'str'");
    }
    var stampColumn := Stamps(df, date);
    if stampColumn.Failure? {
      var k :| 0 <= k < |df| && StampOf(date[k], Clock(df[k].time)).None?;
      assert DateOf(parseDate, df[k].date) == Some(date[k]);
      assert Unreadable(parseDate, df[k]);
      return Failure(stampColumn.error);
    }
    var datetime := stampColumn.value;
    if streaksNumeric {
      return Failure("AttributeError: Can only use .str accessor with string values!");
    }
    var streakColumn := Column(df, (row: RawRow) => Streak(row.streak));
    if streakColumn.Failure? {
      var k :| 0 <= k < |df| && Streak(df[k].streak).None?;
      assert Unreadable(parseDate, df[k]);
      return Failure(streakColumn.error);
    }
    var streak := streakColumn.value;
    r := Success(Rebuilt(team, parseDate, df, date, datetime, streak));
  }

}
