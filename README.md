# sportquery NBA scrapers and sync job, in Dafny

sportquery scrapes basketball-reference.com and keeps the results in an
SQLite database. This project models its NBA core:

- The sync job (`sportquery/nba/sync_database.py`). It pulls every team's
  schedule season by season. It re-pulls the latest stored season. Then it
  fetches the boxscore, plus-minus and play-by-play of every game id it has
  not yet recorded.
- The scrapers the job calls, in their packaged form under `sportquery/nba/`:
  - the teams of a season;
  - a game's boxscore;
  - its plus-minus bars;
  - its play-by-play.
- The older versions of those scrapers under `src/nba/`, plus the schedule
  scraper, which survives only there.
- The franchise-name table `team_abbr`.

Each scraper is modelled on the page it has already fetched. Reading a
page's HTML tables is a function parameter: `parse`, `read`, or the parsed
plus-minus page. So is the transliteration of `unidecode` (`fold`). So is
fetching each page in the sync job (`teamsOf`, `scheduleOf`, `fetch`).
What the source does with the parsed cells is modelled step by step:

- renaming, inserting, dropping and selecting columns;
- filtering rows;
- pandas merges and concatenation;
- cell conversions;
- forward fill and cumulative sums;
- the per-player loop;
- the sync loops and inserts.

Each step is modelled together with every place it raises.

Modules:

- `Wrappers`: Option and Result.
- `Text`: the string functions of Python the source relies on. These are
  `str.split`, `rstrip`, `strip`, `upper`, `lower`, `int()`, `str(n)`,
  `str.replace`, and deleting comment markers.
- `Series`: `cumsum`.
- `Frames`: a positional data frame, with the pandas operations the
  boxscore scraper uses.
- `Teams`: the franchise table and `get_teams`, in both versions.
- `Schedule`: `get_schedule`, from `src/nba/schedule.py`.
- `Plays`: the play-by-play cleaning both play-by-play scrapers share.
- `PlayByPlay` and `PlayByPlayLegacy`: the rest of each play-by-play
  scraper.
- `PlusMinus`: both plus-minus scrapers.
- `Boxscore` and `BoxscoreLegacy`: the two boxscore scrapers.
- `SyncDatabase`: the sync job, as a `Database` class whose tables are
  fields, and a `GameTable` class for the three per-game tables.

## Model

| member | source | states |
|---|---|---|
| Text.StripComments | sportquery/nba/boxscore.py:100 | deleting `<!--` and `-->` never lengthens the page |
| Text.StripCommentsUnchanged | sportquery/nba/teams.py:23 | a page without comment markers is left as it is |
| Text.Split | sportquery/nba/boxscore.py:155 | `str.split` gives at least one piece, and no piece holds the separator |
| Text.SplitJoin | sportquery/nba/boxscore.py:155 | joining the pieces with the separator gives the text back |
| Text.SplitTwo | sportquery/nba/play_by_play.py:88 | text with one separator splits into exactly the two parts around it |
| Text.SplitFirst | sportquery/nba/play_by_play.py:78 | the first piece is the text before the first separator |
| Text.RStrip | sportquery/nba/teams.py:28 | `rstrip('*')` removes exactly the trailing run of `*`, and the result no longer ends in `*` |
| Text.Trim | sportquery/nba/plus_minus.py:48 | `strip()` never lengthens the text and leaves no whitespace at either end |
| Text.TrimOf | sportquery/nba/plus_minus.py:48 | `strip()` of whitespace, a middle with no whitespace at its ends, and whitespace, is exactly that middle |
| Text.TrimUnchanged | sportquery/nba/plus_minus.py:48 | a name without surrounding whitespace is kept |
| Text.ParseInt | src/nba/schedule.py:61 | on the spellings the scrapers meet, `int()` accepts exactly an optionally signed run of ASCII digits, and reads digits as their value |
| Text.ParseIntDecimal | src/nba/schedule.py:61 | `int(str(n))` and `int('-' + str(n))` give n and -n back |
| Text.Decimal | sportquery/nba/play_by_play.py:89 | `str(n)` is a run of digits without a leading zero |
| Text.DecimalValue | sportquery/nba/play_by_play.py:89 | `str(n)` reads back as n |
| Text.Pad | src/nba/schedule.py:67 | the zero-padded date field reads back as its number and has at least the padded width |
| Text.Upper | src/nba/schedule.py:44 | `upper()` maps each character, keeping the length |
| Text.Lower | sportquery/nba/boxscore.py:168 | `lower()` maps each character, keeping the length |
| Text.TranslitAscii | sportquery/nba/boxscore.py:74 | `unidecode` leaves ASCII text as it is |
| Text.ReplaceAbsent | src/nba/schedule.py:57-61 | `str.replace` leaves text without the pattern unchanged |
| Text.ReplaceAfter | src/nba/schedule.py:57-61 | the first occurrence of the pattern is replaced and the text around it kept |
| Text.DigitPrefixBefore | sportquery/nba/play_by_play.py:78 | digits ended by a non-digit form the leading digit run |
| Series.CumSum | sportquery/nba/play_by_play.py:81 | entry k of `cumsum` is entry k-1 plus the k-th input, and entry 0 is the first input |
| Series.SumPrefixes | sportquery/nba/play_by_play.py:81 | the sum of a prefix grows by exactly the next entry |
| Frames.Project | sportquery/nba/boxscore.py:165 | a projected row holds exactly the listed labels' cells |
| Frames.Relabel | sportquery/nba/boxscore.py:146 | `columns.map(g)` renames every label in place, and a cell moves with its label whenever no other label maps to the same name |
| Frames.RelabelledGet | sportquery/nba/boxscore.py:146 | a label that alone maps to its new name keeps its cell there |
| Frames.RelabelledAbsent | sportquery/nba/boxscore.py:146 | a name no label maps to reads as NaN |
| Frames.Rename | sportquery/nba/boxscore.py:71 | `rename` changes only the named label, keeps every other cell, and an absent label leaves the frame as it is |
| Frames.SetColumns | sportquery/nba/boxscore.py:106 | assigning column names raises exactly when the counts differ, and otherwise moves each cell to the name at its position |
| Frames.PositionalGet | sportquery/nba/boxscore.py:106 | a cell is found under the name given at its position |
| Frames.Insert | sportquery/nba/boxscore.py:107 | `insert` raises exactly on an existing label or a position out of range, and otherwise adds the column at that position and keeps every other cell |
| Frames.Remove | src/nba/boxscore.py:46 | dropping a label keeps exactly the other labels |
| Frames.Drop | sportquery/nba/boxscore.py:136-137 | `drop(columns=c)` raises exactly when c is absent, and otherwise removes only c |
| Frames.Select | sportquery/nba/boxscore.py:165 | `df[cols]` raises exactly when a listed column is missing, and otherwise holds exactly those columns in that order |
| Frames.Concat | sportquery/nba/boxscore.py:120-122 | stacking puts the first frame's rows over the second's, over the union of their columns, with NaN where a frame lacks a column |
| Frames.ReplaceCells | sportquery/nba/boxscore.py:148-152 | a whole-frame `replace` passes every cell through the substitution and keeps the shape |
| Frames.MapCells | sportquery/nba/boxscore.py:156 | a cell-wise conversion fails exactly when one cell fails, and otherwise converts each cell |
| Frames.MapColumn | sportquery/nba/boxscore.py:73-74 | rewriting one column raises exactly on a missing column or a cell the rewrite refuses, and leaves the other columns alone |
| Frames.Without | sportquery/nba/boxscore.py:76 | the row filter keeps exactly the rows whose cell differs from the value |
| Frames.WithoutCount | sportquery/nba/boxscore.py:76 | the filter removes exactly the matching rows |
| Frames.WithoutAppend | sportquery/nba/boxscore.py:76 | the filter keeps the surviving rows in order |
| Frames.Where | sportquery/nba/boxscore.py:76 | `df[df[c] != v]` keeps the columns and filters the rows |
| Frames.Merge | sportquery/nba/boxscore.py:142-144 | `merge` raises exactly on a key missing from either side, and otherwise gives the merged labels and rows |
| Frames.InnerMergeMembers | sportquery/nba/boxscore.py:142-143 | an inner merge holds exactly the joins of left and right rows that agree on the keys |
| Frames.LeftMergeMembers | sportquery/nba/boxscore.py:144 | a left merge holds those joins, plus each left row without a partner padded with NaN |
| Frames.LeftMergeKeeps | sportquery/nba/boxscore.py:144 | a left merge loses no left row |
| Frames.CombineKey | sportquery/nba/boxscore.py:142-144 | a merged row's key cells are its left row's |
| Frames.CombineLeft | sportquery/nba/boxscore.py:142-144 | a left label the right side lacks carries the left cell |
| Frames.CombineRight | sportquery/nba/boxscore.py:142-144 | a right label the left side lacks carries the right cell |
| Frames.AsType | sportquery/nba/boxscore.py:165 | `astype` raises exactly on a listed column that is missing or a cell that does not convert, and otherwise converts every listed column |
| Teams.NamesDistinct | sportquery/nba/__init__.py:11-47 | the franchise names of `team_abbr` are distinct |
| Teams.CodesDistinct | sportquery/nba/__init__.py:11-47 | the codes of `team_abbr` are distinct |
| Teams.AbbrEntries | sportquery/nba/__init__.py:11-47 | the dictionary holds exactly the listed pairs |
| Teams.AbbrSize | sportquery/nba/__init__.py:11-47 | the dictionary has 36 franchise names |
| Teams.AbbrCodesShape | sportquery/nba/__init__.py:11-47 | every code is three upper-case letters |
| Teams.AbbrInjective | sportquery/nba/__init__.py:11-47 | no two franchise names share a code |
| Teams.BobcatsCode | sportquery/nba/__init__.py:15 | Charlotte Bobcats is CHA |
| Teams.HornetsCode | sportquery/nba/__init__.py:16 | Charlotte Hornets is CHO, distinct from the Bobcats |
| Teams.NewJerseyCode | sportquery/nba/__init__.py:31 | New Jersey Nets is NJN |
| Teams.BrooklynCode | sportquery/nba/__init__.py:14 | Brooklyn Nets is BRK |
| Teams.Listed | sportquery/nba/teams.py:28-30 | the listed names are exactly the star-stripped Team cells other than `League Average` |
| Teams.ListedAppend | sportquery/nba/teams.py:30 | the filter keeps table order: the rows of a first run are listed before those of a second |
| Teams.ListedOne | sportquery/nba/teams.py:28-30 | a single row is listed once, star-stripped, unless it is `League Average`; with ListedAppend this fixes the order and multiplicity of the list |
| Teams.TeamCodes | sportquery/nba/teams.py:32 | the lookup raises exactly when a listed name is missing or has no code, and otherwise gives each listed name's code in order |
| Teams.Lookup | src/nba/teams.py:31 | a dictionary lookup over names raises exactly on a missing name, and otherwise gives each name's value in order |
| Teams.GetTeams | sportquery/nba/teams.py:9-32 | `get_teams` raises exactly when a listed team has no code, and otherwise returns one code per listed team: code k is the `team_abbr` entry of listed name k, three upper-case letters |
| Teams.GetTeamsLegacy | src/nba/teams.py:9-31 | the older `get_teams` raises exactly when a listed team is not a key of `team_key`, and otherwise returns one entry per listed team: entry k is the `team_key` value of listed name k |
| Schedule.Games | src/nba/schedule.py:40 | exactly the rows that are not repeated headers survive |
| Schedule.GamesAppend | src/nba/schedule.py:40 | the header filter keeps the games in their order |
| Schedule.Clock | src/nba/schedule.py:44 | a missing time stays missing, and a present one gains a final `M` |
| Schedule.Hour12 | src/nba/schedule.py:48 | the `%I` hour is from 1 to 12 |
| Schedule.ParseClock | src/nba/schedule.py:48 | a parsed `%I:%M%p` time is a valid 24-hour time |
| Schedule.ParseClockText | src/nba/schedule.py:46-48 | every valid time, spelled as `%I:%M%p`, parses back to itself |
| Schedule.ClockOfSiteTime | src/nba/schedule.py:44-48 | a time as the page spells it, suffixed and upper-cased, parses to that time |
| Schedule.SevenThirty | src/nba/schedule.py:44-48 | `7:30p` becomes `7:30PM`, which is 19:30 |
| Schedule.DateOf | src/nba/schedule.py:42 | `to_datetime` of a date cell gives NaT for a blank cell and raises exactly on text it cannot read |
| Schedule.StampOf | src/nba/schedule.py:46-48 | the timestamp fails exactly on a present time that is malformed or follows a NaT date, and a missing time gives NaT; a parsed stamp keeps the date |
| Schedule.HomeFlag | src/nba/schedule.py:54-55 | a blank cell becomes True, `@` becomes False, and any other cell passes through |
| Schedule.HomeTeamOfCell | src/nba/schedule.py:65 | a blank cell makes the requested team the home team, and `@` makes the opponent the home team |
| Schedule.Streak | src/nba/schedule.py:57-61 | a blank streak cell makes the conversion raise |
| Schedule.StreakRoundTrip | src/nba/schedule.py:57-61 | every streak the page writes (`W n` or `L n`) reads back as n or -n |
| Schedule.Opponent | src/nba/schedule.py:63 | a blank opponent stays blank |
| Schedule.OpponentCodes | src/nba/schedule.py:63 | a franchise name becomes a three-letter upper-case code, and distinct names become distinct codes |
| Schedule.OpponentKept | src/nba/schedule.py:63 | text that is not a franchise name passes through |
| Schedule.PelicansOpponent | src/nba/schedule.py:63 | New Orleans Pelicans becomes NOP |
| Schedule.GameId | src/nba/schedule.py:67 | a game id exists exactly when the home team does |
| Schedule.NaTGameId | src/nba/schedule.py:67 | a NaT date is spelled `NaT`, so its game id is `NaT0` and the home team |
| Schedule.GameIdLayout | src/nba/schedule.py:67 | a game id is the date as eight digits that read back as year, month and day, then `0`, then the home team |
| Schedule.PelicansOpener | src/nba/schedule.py:67 | the Pelicans' home game of 16 October 2018 is `201810160NOP` |
| Schedule.Column | src/nba/schedule.py:42 | a column conversion raises exactly when one cell does not convert, and otherwise converts every cell |
| Schedule.BlankDate | src/nba/schedule.py:42-48 | a row with a blank date raises only when its time is present or its streak is unreadable |
| Schedule.BlankDateGame | src/nba/schedule.py:42-67 | a kept row with a blank date has a NaT datetime and a game id `NaT0` and the home team |
| Schedule.GetSchedule | src/nba/schedule.py:10-72 | `get_schedule` raises exactly when the time or the streak column as read holds no text (so `+ 'm'` or `.str` meets a numeric column), or a game row has a date that is not blank and cannot be read, a time that cannot be read with its date, or an unreadable streak, and otherwise returns one normalised game per non-header row, in order |
| Schedule.Normalise | src/nba/schedule.py:42-70 | the column rebuild raises exactly when the time or the streak column was read as numbers or a game row cannot be converted, and otherwise gives one normalised game per row, in order |
| Plays.SplitRows | sportquery/nba/play_by_play.py:41-55 | each source row gives two copies, both keeping the row's label, in label order; within a label the model puts the away copy first |
| Plays.CopyOrigin | sportquery/nba/play_by_play.py:41-55 | every split copy is the away or home half of the row its label names |
| Plays.WithEvent | sportquery/nba/play_by_play.py:56 | exactly the copies with an event survive, in order |
| Plays.Marked | sportquery/nba/play_by_play.py:59-61 | a score that is not digits-dash-digits is blanked, and row 0 is seeded with `0-0` |
| Plays.ForwardFill | sportquery/nba/play_by_play.py:62 | `ffill` keeps every present cell, and fills everything once the first cell is present |
| Plays.ForwardFillNearest | sportquery/nba/play_by_play.py:62 | a filled cell is the nearest present cell at or above it, and is missing only when all cells up to it are |
| Plays.ForwardFillKeeps | sportquery/nba/play_by_play.py:62 | filling keeps any property all present cells have |
| Plays.Points | sportquery/nba/play_by_play.py:65-66 | a cell not starting `+digits` counts 0, `+n` counts n, and `int()` raises only on a `+digits` cell followed by other text |
| Plays.PointsOfPlus | sportquery/nba/play_by_play.py:65-66 | `+n` reads as n |
| Plays.PointsAll | sportquery/nba/play_by_play.py:66 | the points conversion raises exactly on a bad cell, and otherwise converts every cell |
| Plays.OnClock | sportquery/nba/play_by_play.py:69-70 | exactly the plays whose time is a game clock survive, in order |
| Plays.Dedupe | sportquery/nba/play_by_play.py:73-75 | de-duplication keeps plays of the input, in order, with distinct keys |
| Plays.DedupeKeepsFirst | sportquery/nba/play_by_play.py:73-75 | a play survives exactly when no earlier play has its key |
| Plays.CopyOf | src/nba/play_by_play.py:47-48 | every copy with an event is one half of its source row |
| Plays.HalfIn | src/nba/play_by_play.py:47-48 | every event of the source has its copy |
| Plays.MissingScoreIff | sportquery/nba/play_by_play.py:59-60 | a copy lacks a score exactly when a source row with an event does |
| Plays.BadPointsIff | sportquery/nba/play_by_play.py:65-66 | a copy has unreadable points exactly when a source row does |
| Plays.MissingTimeIff | sportquery/nba/play_by_play.py:69-70 | a copy lacks a time exactly when a source row with an event does |
| Plays.RowZeroIff | sportquery/nba/play_by_play.py:61 | a copy of row 0 survives exactly when row 0 has an event, and then it comes first |
| Plays.FilledScores | sportquery/nba/play_by_play.py:59-62 | once row 0 is seeded every filled score is well formed: `0-0` on row 0, and a row's own score when well formed |
| Plays.AssembledFromSource | sportquery/nba/play_by_play.py:41-70 | every assembled play on a clock owes its cells to its source row |
| Plays.AssembledOrdered | sportquery/nba/play_by_play.py:41-70 | assembling keeps the copies' order |
| Plays.KeptPlays | sportquery/nba/play_by_play.py:69-75 | filtering and de-duplicating keep provenance and order, and leave keys unique |
| Plays.NotRaises | sportquery/nba/play_by_play.py:55-75 | when the score, time and points columns hold text and none of the per-row failure conditions holds, the cleaning does not raise |
| Plays.NoFailure | sportquery/nba/play_by_play.py:55-75 | with no failure condition, every filled score is present |
| Plays.CleanRaises | sportquery/nba/play_by_play.py:41-75 | the cleaning raises exactly when the score column, the time column or both points columns hold no text (`.str` on a numeric column), a row with an event lacks a score or time, a points cell is unreadable, or row 0 has no event |
| Plays.CleanCleaned | src/nba/play_by_play.py:35-67 | a successful cleaning returns plays that come from the source in order, on a clock, with unique keys, each play's score being its row's own well-formed score, `0-0` on row 0, or the score carried down from the nearest earlier row with an event and a well-formed score |
| Plays.ForwardFillPrev | sportquery/nba/play_by_play.py:62 | a missing cell below the first takes the filled cell just above it |
| Plays.ScoreBeforeNearest | sportquery/nba/play_by_play.py:59-62 | the score carried down to a row is that of the nearest earlier row with an event and a well-formed score (or the `0-0` seeded on row 0) |
| Plays.ScoreAtCopy | sportquery/nba/play_by_play.py:59-62 | after `ffill`, every copy's score is its row's own well-formed score, `0-0` on row 0, and otherwise the score carried down from the nearest earlier row with an event and a well-formed score |
| Plays.FromSourceIsPlayOf | sportquery/nba/play_by_play.py:41-70 | a play owing its cells to its source row is the one play of its row and side |
| Plays.PlayOfFromSource | sportquery/nba/play_by_play.py:41-70 | the play of every event with a clock time owes its cells to its row |
| Plays.AssembledSound | sportquery/nba/play_by_play.py:41-70 | every assembled copy on a clock becomes a play owing its cells to its row |
| Plays.AssembledComplete | sportquery/nba/play_by_play.py:41-70 | every play owing its cells to its row is among the assembled plays on a clock |
| Plays.AssembledExact | sportquery/nba/play_by_play.py:41-70 | the assembled plays on a clock are, in order, exactly the plays owing their cells to their rows |
| Plays.ClockPlaysExact | sportquery/nba/play_by_play.py:41-75 | the cleaning de-duplicates the plays on a clock, which are in order and exactly the plays owing their cells to their rows |
| Plays.DedupeComplete | sportquery/nba/play_by_play.py:73-75 | among the plays of the source, de-duplication keeps one exactly when no earlier play of the source has its key |
| Plays.CleanComplete | sportquery/nba/play_by_play.py:41-75 | every event with a clock time makes a play owing its cells to its row, and the cleaning keeps that play exactly when no earlier play of the source has its key |
| PlayByPlay.ClockMinutes | sportquery/nba/play_by_play.py:78 | the first piece of a clock split at `:` is its leading digits |
| PlayByPlay.Minute | sportquery/nba/play_by_play.py:78 | the minute is the value of the clock's leading digits |
| PlayByPlay.Minutes | sportquery/nba/play_by_play.py:78 | the minute column has one entry per play |
| PlayByPlay.StartQuarter | sportquery/nba/play_by_play.py:79-80 | a row starts a quarter exactly when its minute exceeds the previous row's (0 before the first) |
| PlayByPlay.EndGame | sportquery/nba/play_by_play.py:84-85 | the intended flag is 1 on the last row and only there |
| PlayByPlay.EndGameByLabel | sportquery/nba/play_by_play.py:84-85 | as written, the flag is 1 on every row sharing the last row's source label |
| PlayByPlay.EndGameByLabelAgrees | sportquery/nba/play_by_play.py:84-85 | the two flags agree unless the last two plays are the halves of one source row |
| PlayByPlay.EndGameByLabelMarksTwo | sportquery/nba/play_by_play.py:84-85 | a source of a `Start of 1st quarter` row (its text across the spanned cells) and then a row with both an away and a home event does not raise, cleans to three plays, and as written the last two are both flagged |
| PlayByPlay.NoPointsTextRaises | sportquery/nba/play_by_play.py:65 | a lone row whose points cells are both blank leaves the points column without text, and the cleaning raises AttributeError there |
| PlayByPlay.SplitScore | sportquery/nba/play_by_play.py:88-90 | the away score is the digits before the dash, the home score the digits after it |
| PlayByPlay.SplitScoreDecimal | sportquery/nba/play_by_play.py:88-90 | a score written from two counts splits back into them |
| PlayByPlay.GetPlayByPlay | sportquery/nba/play_by_play.py:9-109 | `get_play_by_play` raises exactly when the cleaning raises or leaves no play, and otherwise returns one output row per cleaned play, built as the game frame |
| PlayByPlay.GameFrame | sportquery/nba/play_by_play.py:78-109 | on a non-empty cleaned frame, the output has one row per play carrying its cells and the game id, quarters that count the quarter starts, and the end-of-game flag on the last row |
| PlayByPlay.QuarterNeverDecreases | sportquery/nba/play_by_play.py:81 | the quarter never goes down |
| PlayByPlay.QuarterStep | sportquery/nba/play_by_play.py:79-81 | from one row to the next the quarter rises by one exactly when the minute rises, and stays otherwise |
| PlayByPlay.QuarterCounts | sportquery/nba/play_by_play.py:81 | a row's quarter counts the quarter starts up to it |
| PlayByPlay.RowsStamped | sportquery/nba/play_by_play.py:84-92 | every row carries the game id, end_game is 1 on the last row only, and the score columns rebuild the play's score |
| PlayByPlayLegacy.QuarterEvents | src/nba/play_by_play.py:70-72 | `Start of 1st quarter` and `Start of 4th quarter` start a quarter |
| PlayByPlayLegacy.OvertimeEvents | src/nba/play_by_play.py:70-72 | an overtime opening does not start a quarter |
| PlayByPlayLegacy.Marks | src/nba/play_by_play.py:70-72 | a play is marked exactly when its event matches `Start of ... quarter` |
| PlayByPlayLegacy.PlayByPlay | src/nba/play_by_play.py:9-77 | `play_by_play` raises exactly when the cleaning raises or neither event column holds text (`event.str.match` on a numeric column), and otherwise returns the game frame of the cleaned plays |
| PlayByPlayLegacy.QuarterNeverDecreases | src/nba/play_by_play.py:74 | the quarter never goes down |
| PlayByPlayLegacy.QuarterCounts | src/nba/play_by_play.py:74 | a play's quarter is 1 plus the quarter starts up to it |
| PlayByPlayLegacy.QuarterKept | src/nba/play_by_play.py:70-74 | a play that does not start a quarter, such as an overtime opening, keeps the previous quarter |
| PlusMinus.FirstDigit | sportquery/nba/plus_minus.py:24 | the search finds the first digit at or after a position, or reports there is none |
| PlusMinus.FirstMatch | sportquery/nba/plus_minus.py:25 | the search finds the first place `[-+]?\d+` matches, or reports there is none |
| PlusMinus.SearchSigned | sportquery/nba/plus_minus.py:25-26 | there is no points value exactly when the text has no digit |
| PlusMinus.WidthOfStyle | sportquery/nba/plus_minus.py:24 | a width written between digit-free text, as in `width:153px;`, reads back |
| PlusMinus.PointsOfText | sportquery/nba/plus_minus.py:25-26 | a signed count after plain text reads back with its sign |
| PlusMinus.SignedAt | sportquery/nba/plus_minus.py:25-26 | the search reads the signed number at the first place a match starts |
| PlusMinus.Unpack | sportquery/nba/plus_minus.py:11-27 | a segment raises exactly when its style is missing or has no digit, and otherwise gives the style's first digits as width and the text's first signed number as points |
| PlusMinus.UnpackBar | sportquery/nba/plus_minus.py:52 | a bar raises exactly when one of its segments does, and otherwise unpacks each segment |
| PlusMinus.UnpackBars | sportquery/nba/plus_minus.py:51-53 | unpacking raises exactly when some segment of some bar does, and otherwise unpacks every bar |
| PlusMinus.LegacyNameBeforeParen | src/nba/plus_minus.py:31-33 | an ASCII name followed by a parenthesised note is read as the name alone |
| PlusMinus.Durations | sportquery/nba/plus_minus.py:60 | rescaled durations are non-negative, one per segment |
| PlusMinus.DurationsSumTo48 | sportquery/nba/plus_minus.py:60 | a player's rescaled durations add up to 48 minutes |
| PlusMinus.Spans | sportquery/nba/plus_minus.py:63-65 | each span keeps its segment's points |
| PlusMinus.SpansContiguous | sportquery/nba/plus_minus.py:63-64 | the spans start at 0, each lasts its duration, each begins where the previous ends, and the last ends at 48 |
| PlusMinus.RSumGrows | sportquery/nba/plus_minus.py:63-64 | cumulative sums of non-negative durations never go down |
| PlusMinus.SpansInOrder | sportquery/nba/plus_minus.py:63-64 | the spans lie in [0, 48] in order without overlap |
| PlusMinus.Scored | sportquery/nba/plus_minus.py:67 | `dropna` keeps exactly the spans with points, in order |
| PlusMinus.PlayerSegmentsInOrder | sportquery/nba/plus_minus.py:58-70 | a player's kept segments are theirs, lie in [0, 48], in order and without overlap |
| PlusMinus.ZippedStep | sportquery/nba/plus_minus.py:58 | each pass of the loop appends that player's segments |
| PlusMinus.ZippedIgnoresExtras | sportquery/nba/plus_minus.py:58 | `zip` ignores the players or bars past the shorter list |
| PlusMinus.ZippedBounds | sportquery/nba/plus_minus.py:58-70 | every segment belongs to a zipped player and lies in [0, 48] |
| PlusMinus.PlayerPass | sportquery/nba/plus_minus.py:59-68 | one pass yields exactly the player's kept segments |
| PlusMinus.Segments | sportquery/nba/plus_minus.py:58-70 | the loop accumulates the segments of every zipped player, in order |
| PlusMinus.Stamp | sportquery/nba/plus_minus.py:72-74 | every row carries the game id, in the segments' order |
| PlusMinus.GetPlusMinus | sportquery/nba/plus_minus.py:30-74 | `get_plus_minus` raises exactly when a bar is unreadable, and otherwise returns the stamped segments of the zipped players and bars |
| PlusMinus.PlusMinusLegacy | src/nba/plus_minus.py:18-58 | the older `plus_minus` does the same on the page without comment markers, reading each name before its `(` |
| Boxscore.TeamTotalsAll | sportquery/nba/boxscore.py:73-74 | the `Team Totals` row is named `All` |
| Boxscore.CleanNameKept | sportquery/nba/boxscore.py:73-74 | an ASCII name without `Team Totals` is kept |
| Boxscore.CleanedPlayers | sportquery/nba/boxscore.py:73-74 | the PLAYER rewrite raises exactly on a missing column or a name that is not text |
| Boxscore.ParsedCells | sportquery/nba/boxscore.py:76-78 | after filtering, every PLAYER is a name other than `Reserves`, and no cell is `Did Not Play` |
| Boxscore.ParsedTotals | sportquery/nba/boxscore.py:73-78 | the team-totals row survives as `All` |
| Boxscore.ParseBoxscore | sportquery/nba/boxscore.py:55-80 | the result is `Parsed`: the table with `Starters` called PLAYER and each name cleaned, its `Reserves` rows filtered out with the others kept in order, and `Did Not Play` cells made `'NaN'`; it raises exactly on a missing PLAYER column or a name that is not text; on success it keeps the labels, has as many rows as the table less those whose name cleans to `Reserves`, no PLAYER is `Reserves`, no cell is `Did Not Play`, and a `Team Totals` row survives as `All` |
| Boxscore.FloatOfDecimal | sportquery/nba/boxscore.py:156 | `float(str(n))` gives n back |
| Boxscore.FloatOfWord | sportquery/nba/boxscore.py:156 | `float` refuses a word that is not `nan` |
| Boxscore.MinutesPlayed | sportquery/nba/boxscore.py:155-158 | converted minutes are a number or NaN, and a cell that is not text gives NaN |
| Boxscore.MinutesOfClock | sportquery/nba/boxscore.py:155-158 | `M:SS` becomes M + SS/60 |
| Boxscore.MinutesWhole | sportquery/nba/boxscore.py:157 | minutes without seconds count whole |
| Boxscore.MinutesOfSentinel | sportquery/nba/boxscore.py:148-158 | a scrubbed sentinel reads as NaN minutes |
| Boxscore.MinutesRaiseOnSentinel | sportquery/nba/boxscore.py:155-156 | without the scrub, a sentinel makes the conversion raise |
| Boxscore.Convert | sportquery/nba/boxscore.py:165 | a converted cell has the column's type, conversion fails exactly on unreadable text for a float column, and a cell already of the type is kept |
| Boxscore.ConvertSentinel | sportquery/nba/boxscore.py:148-165 | sentinels and `Did Not Play` become NaN in a float column |
| Boxscore.KeysAlone | sportquery/nba/boxscore.py:168 | each output key is the only one lower-cased to its name |
| Boxscore.Read | sportquery/nba/boxscore.py:103 | reading a table fails exactly when the page lacks it |
| Boxscore.ScoringTable | sportquery/nba/boxscore.py:104-107 | the result is `Scoring(line)`; it raises exactly with fewer than five Scoring columns, and otherwise has TEAM, PLAYER `All` and the four quarters, taken cell for cell from the first five columns |
| Boxscore.ScoringOf | sportquery/nba/boxscore.py:104-107 | with five Scoring columns the scoring table exists, one row per line-score row, its TEAM and quarter cells those of the first five columns |
| Boxscore.SideTable | sportquery/nba/boxscore.py:111-118 | the result is `Side`: the team's table read, parsed and tagged; on success TEAM and IS_HOME lead the labels, every row carries the team, the side and a player name other than `Reserves`, and no quarter label appears when the page has none |
| Boxscore.SideFails | sportquery/nba/boxscore.py:111-118 | one side's table fails exactly when it is missing, cannot be parsed, or already has a TEAM or IS_HOME label; otherwise its labels are TEAM, IS_HOME, then the table's own with `Starters` as PLAYER |
| Boxscore.TagFails | sportquery/nba/boxscore.py:115-118 | the two tags go in exactly when the frame has neither label, and then lead the labels |
| Boxscore.StackedTables | sportquery/nba/boxscore.py:111-122 | the result is `Stacked`: the home side's frame over the away side's; it fails when either table is missing; on success TEAM and IS_HOME lead, PLAYER is a label, and every row is tagged with one of the two teams and its side |
| Boxscore.StackedRows | sportquery/nba/boxscore.py:120-122 | the stack fails exactly when one side does; otherwise its rows are the home side's rows in order, then the away side's, each cell under a stacked label kept |
| Boxscore.JoinedTags | sportquery/nba/boxscore.py:142-144 | the merges keep every row tagged with one of the two teams and its side |
| Boxscore.JoinedQuarters | sportquery/nba/boxscore.py:142-144 | the quarter cells come from the line score only |
| Boxscore.PlayerQuarters | sportquery/nba/boxscore.py:144 | a row other than `All` has NaN quarters |
| Boxscore.AllQuarters | sportquery/nba/boxscore.py:144 | a team's `All` row takes that team's line-score quarters |
| Boxscore.JoinTables | sportquery/nba/boxscore.py:103-144 | the result is `JoinOf`; it fails without a line score; on success (`JoinedFrom`) the teams are the line score's first cells, away first, the joined frame is exactly `Merged` of the two stacked basic tables, the two stacked advanced tables and the scoring table (inner merge on TEAM, IS_HOME, PLAYER, then left merge on TEAM, PLAYER), every row is tagged, and without quarter labels of the tables' own only `All` rows carry quarters, those of their team's line |
| Boxscore.JoinedShape | sportquery/nba/boxscore.py:137-144 | the merge steps give `Merged`, keep every row tagged, and take quarters from the line score only |
| Boxscore.MergedSucceeds | sportquery/nba/boxscore.py:137-144 | the merges go through when both stacks carry TEAM, IS_HOME and PLAYER, the advanced one has MP, and the scoring table has TEAM and PLAYER |
| Boxscore.InnerSucceeds | sportquery/nba/boxscore.py:142 | the inner merge goes through when both sides carry the three keys, and keeps TEAM and PLAYER |
| Boxscore.JoinSucceeds | sportquery/nba/boxscore.py:103-144 | on a page with a line score of five Scoring columns and two text team cells, four team tables that parse and carry no TEAM or IS_HOME label, and MP in an advanced table, the joins go through |
| Boxscore.HeadedCells | sportquery/nba/boxscore.py:146-147 | each cell moves to its label's heading, and `+/-` to PLUS_MINUS |
| Boxscore.LaterShape | sportquery/nba/boxscore.py:160-168 | the output has the output labels, one row per headed row, each cell of its column's type |
| Boxscore.FinishId | sportquery/nba/boxscore.py:145 | every row's game_id is the game's id |
| Boxscore.FinishMinutes | sportquery/nba/boxscore.py:155-158 | every row's mp is its MP cell, scrubbed and read as minutes |
| Boxscore.FinishPlusMinus | sportquery/nba/boxscore.py:147-152 | every row's plus_minus is its `+/-` cell, scrubbed and read as a float |
| Boxscore.FinishBpm | sportquery/nba/boxscore.py:161-162 | without a BPM column, every bpm is NaN |
| Boxscore.Finish | sportquery/nba/boxscore.py:145-168 | the result is `FinishOf`; it fails when GAME_ID is already a label or no label heads to MP; on success (`Finished`) the output has the typed output columns, one row per joined row, each carried cell its scrubbed joined cell converted, mp the joined MP read as minutes, plus_minus the `+/-` cell, and a NaN bpm when the page has none |
| Boxscore.GetBoxscore | sportquery/nba/boxscore.py:83-170 | the result is `BoxscoreOf`, the joins then the finishing on the page without comment markers; it fails without a line score; on success `joined` is what `JoinOf` gives, so `JoinedFrom` ties its rows to the page's tables as for JoinTables, and the output is `FinishOf` of it with the properties of `Finished` |
| BoxscoreLegacy.LegacyScoring | src/nba/boxscore.py:46-48 | the result is `LegacyScoringOf(line)`; it raises exactly when `T` is missing or five columns do not remain without it, and otherwise has TEAM, PLAYER `All` and the quarters taken cell for cell from the remaining columns |
| BoxscoreLegacy.LegacyOvertime | src/nba/boxscore.py:46-47 | after an overtime game's extra column, six columns remain without `T`, so the renaming raises |
| BoxscoreLegacy.LegacyJoined | src/nba/boxscore.py:80-82 | the legacy merge steps give `LegacyMerged`, keep every row tagged, and take quarters from the line score only |
| BoxscoreLegacy.LegacyJoin | src/nba/boxscore.py:44-82 | the result is `LegacyJoinOf`; it fails without a line score; on success (`LegacyJoinedFrom`) the line score has `T` and five other columns, the teams come from it, away first, the joined frame is exactly `LegacyMerged` of the stacked basic and advanced tables and the scoring table, and every row is tagged |
| BoxscoreLegacy.LegacyHeadings | src/nba/boxscore.py:83-85 | GAME_ID comes first, then each label under its heading, with `+/-` as PLUS_MINUS |
| BoxscoreLegacy.LegacySentinels | src/nba/boxscore.py:88-91 | a sentinel MP cell makes the legacy conversion raise |
| BoxscoreLegacy.LegacyCells | src/nba/boxscore.py:83-91 | the legacy cells keep their values under their headings, and MP becomes minutes |
| BoxscoreLegacy.LegacyFinish | src/nba/boxscore.py:83-91 | the result is `LegacyFinishOf`; it fails on a clashing GAME_ID, on no label heading to MP, or on a sentinel MP cell; with GAME_ID free and one label headed MP it fails exactly when a cell of that label does not read as minutes; on success GAME_ID comes first, then each label under its heading, one row per joined row, each other cell kept and MP read as minutes |
| BoxscoreLegacy.LegacyMinutesFail | src/nba/boxscore.py:88-91 | with one label headed MP, the conversion fails exactly on a cell of it that does not read as minutes |
| BoxscoreLegacy.LegacyBoxscore | src/nba/boxscore.py:33-95 | the result is `LegacyBoxscoreOf`, the legacy joins then the legacy finishing; it fails without a line score; on success `joined` is what `LegacyJoinOf` gives (`LegacyJoinedFrom`: the line score has `T` and five other columns, the teams come from it, and the rows are `LegacyMerged` of the page's tables), no MP cell was a sentinel, and the result has GAME_ID first, then every joined label under its heading, one row per joined row, each cell kept, the game id on every row and MP read as minutes |
| SyncDatabase.InsertableUnique | sportquery/nba/sync_database.py:43 | inserting rows one by one succeeds exactly when the grown table keeps the (game_id, team) constraint |
| SyncDatabase.Append | sportquery/nba/sync_database.py:146 | `to_sql` appends the batch, and raises IntegrityError exactly when the grown table would break the constraint |
| SyncDatabase.Stamp | sportquery/nba/sync_database.py:145 | every fetched game carries the season it was fetched for |
| SyncDatabase.MaxSeason | sportquery/nba/sync_database.py:134-135 | `max(season)` is a stored season and no stored season exceeds it |
| SyncDatabase.Restart | sportquery/nba/sync_database.py:134-136 | on an empty table the pull restarts at `start`, a nonzero largest season is the restart, and any other restart is the largest season |
| SyncDatabase.Without | sportquery/nba/sync_database.py:139 | the delete keeps exactly the rows of other seasons |
| SyncDatabase.WithoutUnique | sportquery/nba/sync_database.py:139 | deleting keeps the constraint |
| SyncDatabase.KeptRows | sportquery/nba/sync_database.py:139-146 | rows of other seasons survive the delete and the pull |
| SyncDatabase.AddTeamsGrows | sportquery/nba/sync_database.py:142-146 | one season's pass only appends, and only that season's games of the listed teams |
| SyncDatabase.SweepGrows | sportquery/nba/sync_database.py:141-146 | the pull only appends, and only games of the seasons walked and the teams listed |
| SyncDatabase.AddTeamsUnique | sportquery/nba/sync_database.py:142-146 | a season's pass keeps the constraint |
| SyncDatabase.SweepUnique | sportquery/nba/sync_database.py:141-146 | the pull keeps the constraint |
| SyncDatabase.PulledGrows | sportquery/nba/sync_database.py:141-146 | a team's stored schedule stays stored as the table grows |
| SyncDatabase.AddTeamsComplete | sportquery/nba/sync_database.py:142-146 | a season's pass that ends without error has stored every listed team's schedule |
| SyncDatabase.SweepComplete | sportquery/nba/sync_database.py:141-146 | a pull that ends without error has stored every listed team's schedule for every season walked |
| SyncDatabase.Completed | sportquery/nba/sync_database.py:148-151 | the result holds exactly the ids of games with an outcome, each once |
| SyncDatabase.Recorded | sportquery/nba/sync_database.py:168-170 | the recorded ids are exactly the non-null ids the table holds |
| SyncDatabase.Pending | sportquery/nba/sync_database.py:172 | the pending ids are exactly the ids asked for and not recorded |
| SyncDatabase.PendingAppend | sportquery/nba/sync_database.py:172 | the pending ids keep the order they were asked in |
| SyncDatabase.PendingNone | sportquery/nba/sync_database.py:172 | nothing is pending once every id asked for is recorded |
| SyncDatabase.GatheredFrom | sportquery/nba/sync_database.py:176-179 | every appended row comes from a successful fetch of a pending id |
| SyncDatabase.GatheredAll | sportquery/nba/sync_database.py:176-179 | when no fetch raises, every fetched row is appended |
| SyncDatabase.Synced | sportquery/nba/sync_database.py:168-179 | a sync keeps the stored rows as a prefix, and adds only rows fetched for ids asked for and not recorded |
| SyncDatabase.SyncIdempotent | sportquery/nba/sync_database.py:168-179 | when every fetch yields rows carrying its id, a second sync with the same ids fetches nothing and adds nothing |
| SyncDatabase.UnstampedRefetched | sportquery/nba/sync_database.py:172 | an id whose fetch yields no row carrying it stays pending after the sync |
| SyncDatabase.SqueezedRecorded | sportquery/nba/sync_database.py:168-172 | as written, the read raises exactly when the table holds one distinct id, and otherwise gives the recorded ids |
| SyncDatabase.SingleGameBlocks | sportquery/nba/sync_database.py:168-172 | after a first sync of one game into an empty table, the read as written raises |
| SyncDatabase.GameTable.constructor | sportquery/nba/sync_database.py:19-112 | a new per-game table is empty |
| SyncDatabase.GameTable.Sync | sportquery/nba/sync_database.py:168-179 | the table becomes the sync of its old rows, and the call fails exactly when a pending fetch raises |
| SyncDatabase.Database.constructor | sportquery/nba/sync_database.py:19-112 | a new database has four empty tables and keeps the constraint |
| SyncDatabase.Database.UpdateSchedules | sportquery/nba/sync_database.py:115-151 | the schedule keeps the constraint and the other seasons' rows, gains only pulled games of the seasons walked, has every listed team pulled on success, and the result is the completed ids |
| SyncDatabase.Database.PullSeasons | sportquery/nba/sync_database.py:141-146 | the loops leave the table and error of the pull over those seasons |
| SyncDatabase.Database.UpdateBoxscores | sportquery/nba/sync_database.py:154-179 | the boxscore table is synced with the ids, failing exactly when a pending fetch raises |
| SyncDatabase.Database.UpdatePlusMinus | sportquery/nba/sync_database.py:182-207 | the plus-minus table is synced with the ids, failing exactly when a pending fetch raises |
| SyncDatabase.Database.UpdatePlayByPlay | sportquery/nba/sync_database.py:210-236 | the play-by-play table is synced with the ids, failing exactly when a pending fetch raises |

## Left out

- HTTP requests to basketball-reference.com are left out. Every scraper takes the fetched page as text.
- `pd.read_html` and its `droplevel` on the table headers are abstract functions (`parse`, `read`). The model covers what is done with the parsed cells, not HTML parsing.
- BeautifulSoup parsing is an abstract function returning the players' divs and bars.
- `unidecode` is an abstract transliteration `fold`. Only its identity on ASCII is stated (`Text.TranslitAscii`).
- The SQLite engine, SQLAlchemy metadata and schema creation (lines 19-112) are not modelled beyond their effects: the tables are fields of `SyncDatabase.Database`, and the (game_id, team) unique constraint of line 43 is its `Valid` predicate. Column types and the other three tables' schemas are not modelled.
- Prefect's Flow, task decorators and logger are left out. So are the `__main__` blocks, the default `current_season` of 2021, and the wiring of the flow at lines 239-245 that passes the completed ids to the other three updates.
- SQL `select distinct` has no defined row order. `SyncDatabase.Completed` uses first-appearance order.
- Each `to_sql` batch is modelled as inserted all or nothing.
- Floating point is modelled as exact reals. Rounding in the minutes conversion and the plus-minus rescaling is not modelled.
- `pd.to_datetime` on a date cell is the parameter `parseDate`. Only the `%I:%M%p` time part is modelled.
- BoxscoreLegacy.LegacyBoxscore: the legacy `astype(boxscore_dtypes)` at line 94 is not modelled, because the legacy schema module is not part of this model. The source prints the frame; the model returns it.
- BoxscoreLegacy.LegacyJoin: the Scoring column group is taken as the frame `read` returns.
- Boxscore.Read: the `Scoring` group of the line score is taken as the frame `read` returns, with single-level labels.
- Boxscore.Finish: its failure is stated both ways only through `FinishOf`. In terms of the joined frame the contract names two causes (a GAME_ID label, no MP label); an unreadable MP cell, a frame too narrow for BPM at position 38, a missing output column and a cell `astype` refuses also make it fail, and no success condition in terms of the joined frame is proved.
- BoxscoreLegacy.LegacyJoin: success on a well-formed page is proved only for the packaged joins (`Boxscore.JoinSucceeds`); the legacy joins have their failure stated both ways only through `LegacyJoinOf`.
- Boxscore.JoinTables: the line-score team cells must be text for the teams to be read; other cells make the model fail, where pandas would keep going.
- Boxscore.Convert: `float()` is modelled on digits, an optional decimal point, an optional sign and `nan`. Exponents, `inf` and surrounding whitespace are not modelled.
- Boxscore.Convert: converting to `str` keeps a number cell as a number rather than its spelling.
- Plays.SplitRows: `sort_index()` sorts with pandas' default quicksort, which is not stable, so the order of a label's away and home copies is not fixed by the source. The model puts the away copy first. That choice decides which copy of a row spanning both columns ("Start of 1st quarter", "Jump ball") survives `drop_duplicates`, and so that play's city and is_home, and how two events on one row are ordered.
- Text.ParseInt: Python's `int()` also accepts surrounding whitespace, `_` between digits and non-ASCII decimal digits. The model refuses those spellings; the cells it reads (streaks and points, already stripped by `read_html`) do not contain them.
- Frames: a row is a map from label to cell, so a frame with two columns of the same label keeps one cell for them.
- Text.Upper and Text.Lower change ASCII letters only, not the full Unicode case mappings.
- PlusMinus.Segments: a bar whose widths sum to 0 gives no rows. In the source, numpy's division makes the durations NaN and `dropna` then removes every row. For a bar with no segments at all, the result depends on the dtype pandas gives the empty frame, which is not modelled.
- `sportquery/nba/schedule.py`, imported by the sync job, is not part of this model. `src/nba/schedule.py` is modelled instead, and its `Game` type is what the schedule table stores.
- SyncDatabase.GameTable.Sync: each fetch is modelled as returning its rows or an error, so `get_boxscore`, `get_plus_minus` and `get_play_by_play` are parameters rather than calls to the scrapers here.
- SyncDatabase.SyncIdempotent: this holds only when every fetch yields rows carrying its id. `SyncDatabase.UnstampedRefetched` shows that a fetch yielding no such row is repeated on every run.
- SyncDatabase.GameTable.Sync: this models the evidently intended read of the recorded ids as a set. The as-written `.squeeze()` is `SyncDatabase.SqueezedRecorded` (see Findings). SyncDatabase.Database.UpdateBoxscores, SyncDatabase.Database.UpdatePlusMinus and SyncDatabase.Database.UpdatePlayByPlay delegate to it and inherit that read.
- PlayByPlay.GetPlayByPlay: the end-of-game flag is the intended `EndGame` (last play only), not the as-written `EndGameByLabel` of sportquery/nba/play_by_play.py:84-85, which also flags the other half of the last source row (see Findings). PlayByPlay.GameFrame builds on the same corrected flag.
- Text.Numeral: the cells `read_html` reads as numbers are taken to be optionally signed digit runs. pandas also reads decimals, exponents, `nan`, `inf` and padded numbers so; a column of such cells is taken to hold text, and the whole-column raises below are then not predicted.
- Plays.Points: a `+n` cell is counted n. When its half's points column holds no text while the other half's does, pandas reads that half as numbers and the concatenation holds a float there; `.str.match` then gives NaN and the source counts 0. The model does not follow the dtype of each half.
- Plays.PointsAll: it states the per-copy conversion of line 66. The AttributeError of `.str.match` at line 65 on a points column with no text is a whole-column condition, stated by `Plays.CleanRaises` through `PointsNumeric`.
- GetBoxscore: the model's frames carry no column dtype. When the MP column at sportquery/nba/boxscore.py:155 is numeric, because the basic tables held no MP text or because `replace` at line 148 downcasts a column left with no text, `MP.str.split(':')` raises AttributeError; `Boxscore.FinishOf`, and so `Boxscore.Finish` and `Boxscore.GetBoxscore`, read each cell and succeed with NaN minutes there.
- LegacyMinutesFail: its "fails exactly when a cell does not read as minutes" is per cell. The AttributeError of `MP.str.split(':')` at src/nba/boxscore.py:88 when the MP column as read holds no text is not modelled, so `BoxscoreLegacy.LegacyFinishOf`, `BoxscoreLegacy.LegacyFinish` and `BoxscoreLegacy.LegacyBoxscore` succeed with NaN minutes there.
- LegacyFinish: the same whole-column raise at src/nba/boxscore.py:88 is missing from its failure conditions.
- LegacyBoxscore: the same whole-column raise at src/nba/boxscore.py:88 is missing from its failure conditions.
- Boxscore.Finish: the same whole-column raise at sportquery/nba/boxscore.py:155 is missing from its failure conditions.

## Findings

| source | as written | input that shows it | evidently intended | confidence | as-written member | corrected member |
|---|---|---|---|---|---|---|
| sportquery/nba/sync_database.py:168-172 (also 196-200, 224-228) | `read_sql(...).squeeze()` turns the one-column frame of recorded ids into a bare value when it has exactly one row, and `game_ids.isin(value)` then raises TypeError | a run that recorded a single game (say its other fetches failed); every later run of the update raises before fetching | read the recorded ids as a collection, so that already recorded games are skipped and the rest fetched | high, not executed | SyncDatabase.SqueezedRecorded, SyncDatabase.SingleGameBlocks | SyncDatabase.GameTable.Sync, SyncDatabase.SyncIdempotent |
| sportquery/nba/play_by_play.py:84-85 | `df.loc[df.index[-1], 'end_game'] = 1` marks every row whose index label equals the last row's; after the away/home concat both halves of a source row share that label | a quarter's opening row, then a last row holding both an away and a home event (`EndGameByLabelMarksTwo`); every column read through `.str` holds text, and the last two plays get end_game 1, 1 | flag only the last play of the game | medium, not executed | PlayByPlay.EndGameByLabel, PlayByPlay.EndGameByLabelMarksTwo | PlayByPlay.EndGame, PlayByPlay.RowsStamped |
| src/nba/boxscore.py:46-47 | the Scoring block of the line score loses only its `T` column, and the remaining columns are then renamed to five names | an overtime game, whose line score has an `OT` column between the fourth quarter and `T` (`LegacyOvertime`): six columns remain and the renaming raises ValueError, so no overtime box score is scraped | keep the team and the four quarters, the first five columns, as sportquery/nba/boxscore.py:105 does | high, not executed | BoxscoreLegacy.LegacyScoring, BoxscoreLegacy.LegacyOvertime | Boxscore.ScoringTable |
