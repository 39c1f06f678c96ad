// The team list of a season and the franchise-name -> team-code table.
module Teams {
  import opened Wrappers
  import opened Text

  /** The `team_abbr` table, one (full name, code) pair per franchise name. */
  const TeamTable: seq<(string, string)> := [
    ("Atlanta Hawks", "ATL"),
    ("Boston Celtics", "BOS"),
    ("Brooklyn Nets", "BRK"),
    ("Charlotte Bobcats", "CHA"),
    ("Charlotte Hornets", "CHO"),
    ("Chicago Bulls", "CHI"),
    ("Cleveland Cavaliers", "CLE"),
    ("Dallas Mavericks", "DAL"),
    ("Denver Nuggets", "DEN"),
    ("Detroit Pistons", "DET"),
    ("Golden State Warriors", "GSW"),
    ("Houston Rockets", "HOU"),
    ("Indiana Pacers", "IND"),
    ("Los Angeles Clippers", "LAC"),
    ("Los Angeles Lakers", "LAL"),
    ("Memphis Grizzlies", "MEM"),
    ("Miami Heat", "MIA"),
    ("Milwaukee Bucks", "MIL"),
    ("Minnesota Timberwolves", "MIN"),
    ("New Jersey Nets", "NJN"),
    ("New Orleans Hornets", "NOH"),
    ("New Orleans Pelicans", "NOP"),
    ("New Orleans/Oklahoma City Hornets", "NOK"),
    ("New York Knicks", "NYK"),
    ("Oklahoma City Thunder", "OKC"),
    ("Orlando Magic", "ORL"),
    ("Philadelphia 76ers", "PHI"),
    ("Phoenix Suns", "PHO"),
    ("Portland Trail Blazers", "POR"),
    ("Sacramento Kings", "SAC"),
    ("San Antonio Spurs", "SAS"),
    ("Seattle SuperSonics", "SEA"),
    ("Toronto Raptors", "TOR"),
    ("Utah Jazz", "UTA"),
    ("Vancouver Grizzlies", "VAN"),
    ("Washington Wizards", "WAS")]

  // Pairwise distinctness of the 36 literals, in blocks of rows small enough to check quickly.
  lemma NamesDistinctA() ensures forall i, j :: 0 <= i < 2 && i < j < |TeamTable| ==> TeamTable[i].0 != TeamTable[j].0 {}
  lemma NamesDistinctB() ensures forall i, j :: 2 <= i < 4 && i < j < |TeamTable| ==> TeamTable[i].0 != TeamTable[j].0 {}
  lemma NamesDistinctC() ensures forall i, j :: 4 <= i < 6 && i < j < |TeamTable| ==> TeamTable[i].0 != TeamTable[j].0 {}
  lemma NamesDistinctD() ensures forall i, j :: 6 <= i < 13 && i < j < |TeamTable| ==> TeamTable[i].0 != TeamTable[j].0 {}
  lemma NamesDistinctE() ensures forall i, j :: 13 <= i < 21 && i < j < |TeamTable| ==> TeamTable[i].0 != TeamTable[j].0 {}
  lemma NamesDistinctF() ensures forall i, j :: 21 <= i < j < |TeamTable| ==> TeamTable[i].0 != TeamTable[j].0 {}

  lemma NamesDistinct()
    ensures forall i, j :: 0 <= i < j < |TeamTable| ==> TeamTable[i].0 != TeamTable[j].0
  {
    NamesDistinctA();
    NamesDistinctB();
    NamesDistinctC();
    NamesDistinctD();
    NamesDistinctE();
    NamesDistinctF();
  }

  lemma CodesDistinctA() ensures forall i, j :: 0 <= i < 2 && i < j < |TeamTable| ==> TeamTable[i].1 != TeamTable[j].1 {}
  lemma CodesDistinctB() ensures forall i, j :: 2 <= i < 4 && i < j < |TeamTable| ==> TeamTable[i].1 != TeamTable[j].1 {}
  lemma CodesDistinctC() ensures forall i, j :: 4 <= i < 6 && i < j < |TeamTable| ==> TeamTable[i].1 != TeamTable[j].1 {}
  lemma CodesDistinctD() ensures forall i, j :: 6 <= i < 13 && i < j < |TeamTable| ==> TeamTable[i].1 != TeamTable[j].1 {}
  lemma CodesDistinctE() ensures forall i, j :: 13 <= i < 21 && i < j < |TeamTable| ==> TeamTable[i].1 != TeamTable[j].1 {}
  lemma CodesDistinctF() ensures forall i, j :: 21 <= i < j < |TeamTable| ==> TeamTable[i].1 != TeamTable[j].1 {}

  lemma CodesDistinct()
    ensures forall i, j :: 0 <= i < j < |TeamTable| ==> TeamTable[i].1 != TeamTable[j].1
  {
    CodesDistinctA();
    CodesDistinctB();
    CodesDistinctC();
    CodesDistinctD();
    CodesDistinctE();
    CodesDistinctF();
  }

  /** A Python dict display: a later entry overrides an earlier one with the same key. */
  function DictOf(pairs: seq<(string, string)>): map<string, string>
  {
    if pairs == [] then map[]
    else DictOf(pairs[..|pairs| - 1])[pairs[|pairs| - 1].0 := pairs[|pairs| - 1].1]
  }

  predicate KeysDistinct(pairs: seq<(string, string)>)
  {
    forall i, j :: 0 <= i < j < |pairs| ==> pairs[i].0 != pairs[j].0
  }

  lemma {:induction false} DictOfKeys(pairs: seq<(string, string)>)
    ensures forall k :: k in DictOf(pairs) <==> exists i :: 0 <= i < |pairs| && pairs[i].0 == k
  {
    if pairs != [] {
      var init := pairs[..|pairs| - 1];
      DictOfKeys(init);
      forall k | k in DictOf(pairs) ensures exists i :: 0 <= i < |pairs| && pairs[i].0 == k {
        if k != pairs[|pairs| - 1].0 {
          assert k in DictOf(init);
          var i :| 0 <= i < |init| && init[i].0 == k;
          assert pairs[i].0 == k;
        }
      }
    }
  }

  lemma {:induction false} DictOfLookup(pairs: seq<(string, string)>, i: int)
    requires KeysDistinct(pairs)
    requires 0 <= i < |pairs|
    ensures pairs[i].0 in DictOf(pairs) && DictOf(pairs)[pairs[i].0] == pairs[i].1
  {
    if i < |pairs| - 1 {
      var init := pairs[..|pairs| - 1];
      assert init[i] == pairs[i];
      DictOfLookup(init, i);
    }
  }

  lemma {:induction false} DictOfSize(pairs: seq<(string, string)>)
    requires KeysDistinct(pairs)
    ensures |DictOf(pairs)| == |pairs|
  {
    if pairs != [] {
      var init := pairs[..|pairs| - 1];
      DictOfSize(init);
      DictOfKeys(init);
      assert pairs[|pairs| - 1].0 !in DictOf(init);
    }
  }

  /** `team_abbr`. */
  const TeamAbbr: map<string, string> := DictOf(TeamTable)

  lemma {:induction false} AbbrEntries()
    ensures forall i :: 0 <= i < |TeamTable| ==> TeamTable[i].0 in TeamAbbr && TeamAbbr[TeamTable[i].0] == TeamTable[i].1
    ensures forall n :: n in TeamAbbr ==> exists i :: 0 <= i < |TeamTable| && TeamTable[i].0 == n
  {
    NamesDistinct();
    forall i | 0 <= i < |TeamTable| ensures TeamTable[i].0 in TeamAbbr && TeamAbbr[TeamTable[i].0] == TeamTable[i].1 {
      DictOfLookup(TeamTable, i);
    }
    DictOfKeys(TeamTable);
  }

  /** The table has 36 entries. */
  lemma {:induction false} AbbrSize()
    ensures |TeamAbbr| == 36
  {
    NamesDistinct();
    DictOfSize(TeamTable);
  }

  predicate IsUpper(c: char) { 'A' <= c <= 'Z' }

  lemma CodesShape()
    ensures forall i :: 0 <= i < |TeamTable| ==> |TeamTable[i].1| == 3 && forall k :: 0 <= k < 3 ==> IsUpper(TeamTable[i].1[k])
  {
  }

  /** Every code is three upper-case letters. */
  lemma {:induction false} AbbrCodesShape()
    ensures forall n :: n in TeamAbbr ==> |TeamAbbr[n]| == 3 && forall k :: 0 <= k < 3 ==> IsUpper(TeamAbbr[n][k])
  {
    AbbrEntries();
    CodesShape();
    forall n | n in TeamAbbr ensures |TeamAbbr[n]| == 3 && forall k :: 0 <= k < 3 ==> IsUpper(TeamAbbr[n][k]) {
      var i :| 0 <= i < |TeamTable| && TeamTable[i].0 == n;
      assert TeamAbbr[n] == TeamTable[i].1;
    }
  }

  /** No two franchise names share a code. */
  lemma {:induction false} AbbrInjective()
    ensures forall a, b :: a in TeamAbbr && b in TeamAbbr && a != b ==> TeamAbbr[a] != TeamAbbr[b]
  {
    AbbrEntries();
    CodesDistinct();
    forall a, b | a in TeamAbbr && b in TeamAbbr && a != b ensures TeamAbbr[a] != TeamAbbr[b] {
      var i :| 0 <= i < |TeamTable| && TeamTable[i].0 == a;
      var j :| 0 <= j < |TeamTable| && TeamTable[j].0 == b;
      assert i != j;
    }
  }

  lemma {:induction false} AbbrAt(i: int)
    requires 0 <= i < |TeamTable|
    ensures TeamTable[i].0 in TeamAbbr && TeamAbbr[TeamTable[i].0] == TeamTable[i].1
  {
    NamesDistinct();
    DictOfLookup(TeamTable, i);
  }

  // The renamed franchises keep distinct codes: Charlotte Bobcats CHA and Charlotte Hornets CHO,
  // New Jersey Nets NJN and Brooklyn Nets BRK.
  lemma BobcatsCode()
    ensures "Charlotte Bobcats" in TeamAbbr && TeamAbbr["Charlotte Bobcats"] == "CHA"
  {
    AbbrAt(3);
  }

  lemma HornetsCode()
    ensures "Charlotte Hornets" in TeamAbbr && TeamAbbr["Charlotte Hornets"] == "CHO"
  {
    AbbrAt(4);
  }

  lemma NewJerseyCode()
    ensures "New Jersey Nets" in TeamAbbr && TeamAbbr["New Jersey Nets"] == "NJN"
  {
    AbbrAt(19);
  }

  lemma BrooklynCode()
    ensures "Brooklyn Nets" in TeamAbbr && TeamAbbr["Brooklyn Nets"] == "BRK"
  {
    AbbrAt(2);
  }

  const LeagueAverage := "League Average"

  /** A Team cell with its trailing `*` (playoff marker) removed; a missing cell stays missing. */
  function StripStar(cell: Option<string>): Option<string>
  {
    match cell
    case None => None
    case Some(name) => Some(RStrip(name, '*'))
  }

  /** The stripped Team cells other than `League Average`, in table order. */
  function Listed(cells: seq<Option<string>>): (r: seq<Option<string>>)
    ensures forall k :: 0 <= k < |r| ==> r[k] != Some(LeagueAverage)
    ensures forall x :: x in r <==> exists c :: c in cells && StripStar(c) == x && x != Some(LeagueAverage)
  {
    if cells == [] then []
    else
      var x := StripStar(cells[0]);
      var rest := Listed(cells[1..]);
      assert forall c :: c in cells[1..] ==> c in cells;
      if x == Some(LeagueAverage) then rest else [x] + rest
  }

  /** The filter keeps table order: listing two runs of rows lists the first run, then the second. */
  lemma {:induction false} ListedAppend(a: seq<Option<string>>, b: seq<Option<string>>)
    ensures Listed(a + b) == Listed(a) + Listed(b)
    decreases |a|
  {
    if a == [] {
      assert a + b == b;
    } else {
      var x := StripStar(a[0]);
      assert (a + b)[0] == a[0] && (a + b)[1..] == a[1..] + b;
      ListedAppend(a[1..], b);
      assert Listed(a + b) == (if x == Some(LeagueAverage) then [] else [x]) + Listed(a[1..] + b);
      assert Listed(a) == (if x == Some(LeagueAverage) then [] else [x]) + Listed(a[1..]);
    }
  }

  /** One row is listed once, stripped of its `*`, unless it is the `League Average` row. */
  lemma ListedOne(c: Option<string>)
    ensures Listed([c]) == if StripStar(c) == Some(LeagueAverage) then [] else [StripStar(c)]
  {
    assert [c][1..] == [];
  }

  /**
   * `get_teams` once the table is extracted: the code of every listed name,
   * in order; a missing cell or a name without a code raises KeyError.
   */
  function TeamCodes(key: map<string, string>, cells: seq<Option<string>>): (r: Result<seq<string>, string>)
    ensures r.Success? <==> forall x :: x in Listed(cells) ==> x.Some? && x.value in key
    ensures r.Success? ==>
              |r.value| == |Listed(cells)| &&
              forall k :: 0 <= k < |r.value| ==> r.value[k] == key[Listed(cells)[k].value]
  {
    Lookup(key, Listed(cells))
  }

  function Lookup(key: map<string, string>, names: seq<Option<string>>): (r: Result<seq<string>, string>)
    ensures r.Success? <==> forall x :: x in names ==> x.Some? && x.value in key
    ensures r.Success? ==>
              |r.value| == |names| &&
              forall k :: 0 <= k < |names| ==> r.value[k] == key[names[k].value]
  {
    if names == [] then Success([])
    else if names[0].None? || names[0].value !in key then
      assert names[0] in names;
      Failure("KeyError")
    else
      match Lookup(key, names[1..])
      case Failure(e) => Failure(e)
      case Success(rest) => Success([key[names[0].value]] + rest)
  }

  /**
   * `get_teams` of the packaged scraper: the comment markers are deleted,
   * `parse` stands for reading the `Team` column of the `advanced-team`
   * table, and every listed name is looked up in `team_abbr`.
   */
  function GetTeams(html: string, parse: string -> seq<Option<string>>): (r: Result<seq<string>, string>)
    ensures r.Success? <==> forall x :: x in Listed(parse(StripComments(html))) ==> x.Some? && x.value in TeamAbbr
    ensures r.Success? ==> |r.value| == |Listed(parse(StripComments(html)))|
    ensures r.Success? ==> forall k :: 0 <= k < |r.value| ==>
              var name := Listed(parse(StripComments(html)))[k];
              name.Some? && name.value in TeamAbbr && r.value[k] == TeamAbbr[name.value]
    ensures r.Success? ==> forall k :: 0 <= k < |r.value| ==> |r.value[k]| == 3 && forall i :: 0 <= i < 3 ==> IsUpper(r.value[k][i])
  {
    AbbrCodesShape();
    TeamCodes(TeamAbbr, parse(StripComments(html)))
  }

  /**
   * `get_teams` of the older scraper: the same steps over the `Team` column
   * of the `team-stats-base` table, with the names looked up in the
   * caller's `team_key` map.
   */
  function GetTeamsLegacy(teamKey: map<string, string>, html: string, parse: string -> seq<Option<string>>): (r: Result<seq<string>, string>)
    ensures r.Success? <==> forall x :: x in Listed(parse(StripComments(html))) ==> x.Some? && x.value in teamKey
    ensures r.Success? ==> |r.value| == |Listed(parse(StripComments(html)))|
    ensures r.Success? ==> forall k :: 0 <= k < |r.value| ==>
              var name := Listed(parse(StripComments(html)))[k];
              name.Some? && name.value in teamKey && r.value[k] == teamKey[name.value]
    ensures r.Success? ==> forall k :: 0 <= k < |r.value| ==> r.value[k] in teamKey.Values
  {
    var r := TeamCodes(teamKey, parse(StripComments(html)));
    assert r.Success? ==> forall k :: 0 <= k < |r.value| ==> r.value[k] in teamKey.Values by {
      if r.Success? {
        var names := Listed(parse(StripComments(html)));
        forall k | 0 <= k < |r.value| ensures r.value[k] in teamKey.Values {
          assert names[k] in names;
          assert teamKey[names[k].value] == r.value[k];
        }
      }
    }
    r
  }
}
