// The plus-minus scrapers, `get_plus_minus` (sportquery/nba/plus_minus.py)
// and the older `plus_minus` (src/nba/plus_minus.py): each player's bar of
// on-court segments is rescaled to the 48 minutes of regulation, cut at the
// running sums of the segment widths, and the segments without a point value
// are dropped.
module PlusMinus {
  import opened Wrappers
  import opened Text
  import opened Series

  /** One segment `div` of a player's bar: its `style` attribute (None when absent) and its text. */
  datatype Div = Div(style: Option<string>, text: string)

  /** What the HTML parser yields from a page: the texts naming the players, and each player's segment divs. */
  datatype Page = Page(players: seq<string>, bars: seq<seq<Div>>)

  /** A segment after `_unpack_plus_minus`: its width and its point value, if any. */
  datatype Bar = Bar(width: nat, points: Option<int>)

  /** A segment cut into the 48 minutes, before the rows without points are dropped. */
  datatype Span = Span(subin: real, subout: real, points: Option<int>)

  /** A kept segment of a player. */
  datatype Segment = Segment(player: string, subin: real, subout: real, plusMinus: int)

  /** One row of the returned frame, in column order: game_id, player, subin_minute, subout_minute, plus_minus. */
  datatype Row = Row(gameId: string, player: string, subinMinute: real, suboutMinute: real, plusMinus: int)

  // ---------------------------------------------------------------------
  // `_unpack_plus_minus`
  // ---------------------------------------------------------------------

  /** The index of the first digit of `s` at or after `from`. */
  function FirstDigit(s: string, from: nat): (r: Option<nat>)
    requires from <= |s|
    ensures r.Some? ==> from <= r.value < |s| && IsDigit(s[r.value])
    ensures forall j :: from <= j < |s| && (r.None? || j < r.value) ==> !IsDigit(s[j])
    decreases |s| - from
  {
    if from == |s| then None
    else if IsDigit(s[from]) then Some(from)
    else FirstDigit(s, from + 1)
  }

  /** `re.search(r'\d+', s)`: the first run of digits, read as a number. */
  function SearchDigits(s: string): (r: Option<nat>)
  {
    match FirstDigit(s, 0)
    case None => None
    case Some(i) => Some(NatValue(DigitPrefix(s[i..])))
  }

  predicate IsSign(c: char) { c == '+' || c == '-' }

  /** `[-+]?\d+` can start at i: a digit, or a sign followed by a digit. */
  predicate MatchStart(s: string, i: int)
    requires 0 <= i < |s|
  {
    IsDigit(s[i]) || (IsSign(s[i]) && i + 1 < |s| && IsDigit(s[i + 1]))
  }

  /** The first index at or after `from` where `[-+]?\d+` matches. */
  function FirstMatch(s: string, from: nat): (r: Option<nat>)
    requires from <= |s|
    ensures r.Some? ==> from <= r.value < |s| && MatchStart(s, r.value)
    ensures forall j :: from <= j < |s| && (r.None? || j < r.value) ==> !MatchStart(s, j)
    decreases |s| - from
  {
    if from == |s| then None
    else if MatchStart(s, from) then Some(from)
    else FirstMatch(s, from + 1)
  }

  /**
   * `re.search(r'[-+]?\d+', s)` read by `int()`: the first optionally
   * signed run of digits, or None when there is none.
   */
  function SearchSigned(s: string): (r: Option<int>)
    ensures r.None? <==> forall i :: 0 <= i < |s| ==> !IsDigit(s[i])
  {
    match FirstMatch(s, 0)
    case None =>
      assert forall i :: 0 <= i < |s| ==> !IsDigit(s[i]) by {
        forall i | 0 <= i < |s| ensures !IsDigit(s[i]) {
          assert !MatchStart(s, i);
        }
      }
      None
    case Some(i) =>
      assert IsDigit(s[i]) || IsDigit(s[i + 1]);
      if IsDigit(s[i]) then Some(NatValue(DigitPrefix(s[i..])))
      else
        var n := NatValue(DigitPrefix(s[i + 1..]));
        Some(if s[i] == '-' then -(n as int) else n as int)
  }

  /** Text with no digit and no sign in it. */
  predicate Plain(s: string)
  {
    forall i :: 0 <= i < |s| ==> !IsDigit(s[i]) && !IsSign(s[i])
  }

  /** A width written between digit-free text, as in `width:153px;`, is read back. */
  lemma WidthOfStyle(before: string, n: nat, after: string)
    requires forall i :: 0 <= i < |before| ==> !IsDigit(before[i])
    requires |after| > 0 ==> !IsDigit(after[0])
    ensures SearchDigits(before + Decimal(n) + after) == Some(n)
  {
    var digits := Decimal(n);
    var s := before + digits + after;
    var b := |before|;
    DigitsLayout(before, digits, after);
    DigitRunAt(s[b..], digits, after);
    DecimalValue(n);
    DigitsRead(s, b, n);
  }

  /** Where the digits sit in `before + digits + after`. */
  lemma DigitsLayout(before: string, digits: string, after: string)
    requires |digits| > 0
    ensures var s := before + digits + after; var b := |before|;
      && b < |s| && s[b] == digits[0] && s[b..] == digits + after
      && forall j :: 0 <= j < b ==> s[j] == before[j]
  {
  }

  /** The search reads `n` at b when b holds the first digit. */
  lemma DigitsRead(s: string, b: nat, n: nat)
    requires b < |s| && IsDigit(s[b])
    requires forall j :: 0 <= j < b ==> !IsDigit(s[j])
    requires NatValue(DigitPrefix(s[b..])) == n
    ensures SearchDigits(s) == Some(n)
  {
    FirstDigitIs(s, 0, b);
  }

  /** A signed count after plain text, as in `+5` or `-3`, is read back with its sign. */
  lemma PointsOfText(before: string, sign: char, n: nat, after: string)
    requires Plain(before) && IsSign(sign)
    requires |after| > 0 ==> !IsDigit(after[0])
    ensures SearchSigned(before + [sign] + Decimal(n) + after) == Some(if sign == '-' then -(n as int) else n as int)
  {
    var digits := Decimal(n);
    var s := before + [sign] + digits + after;
    var b := |before|;
    SignedLayout(before, sign, digits, after);
    PlainBefore(before, [sign] + digits + after);
    DigitRunAt(s[b + 1..], digits, after);
    DecimalValue(n);
    SignedRead(s, b, n);
  }

  /** The search reads `n` with the sign at b when no match starts before b. */
  lemma SignedRead(s: string, b: nat, n: nat)
    requires b + 1 < |s| && IsSign(s[b]) && IsDigit(s[b + 1])
    requires forall j :: 0 <= j < b ==> !MatchStart(s, j)
    requires NatValue(DigitPrefix(s[b + 1..])) == n
    ensures SearchSigned(s) == Some(if s[b] == '-' then -(n as int) else n as int)
  {
    SignedAt(s, b);
  }

  /** Where the sign and the digits sit in `before + [sign] + digits + after`. */
  lemma SignedLayout(before: string, sign: char, digits: string, after: string)
    requires |digits| > 0
    ensures var s := before + [sign] + digits + after; var b := |before|;
      && b + 1 < |s| && s[b] == sign && s[b + 1] == digits[0]
      && s[b + 1..] == digits + after
      && s == before + ([sign] + digits + after)
  {
  }

  /** No match can start inside plain text. */
  lemma PlainBefore(before: string, rest: string)
    requires Plain(before)
    ensures forall j :: 0 <= j < |before| ==> !MatchStart(before + rest, j)
  {
    var s := before + rest;
    forall j | 0 <= j < |before| ensures !MatchStart(s, j) {
      assert s[j] == before[j];
    }
  }

  /** The search reads a signed number at the first place a match starts. */
  lemma SignedAt(s: string, b: nat)
    requires b + 1 < |s| && IsSign(s[b]) && IsDigit(s[b + 1])
    requires forall j :: 0 <= j < b ==> !MatchStart(s, j)
    ensures var n := NatValue(DigitPrefix(s[b + 1..]));
            SearchSigned(s) == Some(if s[b] == '-' then -(n as int) else n as int)
  {
    FirstMatchIs(s, 0, b);
  }

  lemma {:induction false} FirstMatchIs(s: string, from: nat, b: nat)
    requires from <= b < |s| && MatchStart(s, b)
    requires forall j :: from <= j < b ==> !MatchStart(s, j)
    ensures FirstMatch(s, from) == Some(b)
    decreases b - from
  {
    if from < b {
      FirstMatchIs(s, from + 1, b);
    }
  }

  lemma {:induction false} FirstDigitIs(s: string, from: nat, b: nat)
    requires from <= b < |s| && IsDigit(s[b])
    requires forall j :: from <= j < b ==> !IsDigit(s[j])
    ensures FirstDigit(s, from) == Some(b)
    decreases b - from
  {
    if from < b {
      FirstDigitIs(s, from + 1, b);
    }
  }

  lemma DigitRunAt(s: string, digits: string, after: string)
    requires s == digits + after && IsDigits(digits)
    requires |after| > 0 ==> !IsDigit(after[0])
    ensures DigitPrefix(s) == digits
  {
    assert s[..|digits|] == digits;
    if |after| > 0 {
      DigitPrefixBefore(s, |digits|);
    } else {
      assert s == digits;
    }
  }

  /**
   * `_unpack_plus_minus`: the width is the first run of digits in the
   * style, and the points the first optionally signed number in the text.
   * A missing style, or one without digits, raises.
   */
  function Unpack(d: Div): (r: Result<Bar, string>)
    ensures d.style.None? ==> r.Failure?
    ensures d.style.Some? ==> (r.Success? <==> SearchDigits(d.style.value).Some?)
    ensures r.Success? ==> r.value.width == SearchDigits(d.style.value).value && r.value.points == SearchSigned(d.text)
  {
    match d.style
    case None => Failure("TypeError: expected string or bytes-like object")
    case Some(style) =>
      match SearchDigits(style)
      case None => Failure("AttributeError: 'NoneType' object has no attribute 'group'")
      case Some(width) => Success(Bar(width, SearchSigned(d.text)))
  }

  predicate Unreadable(d: Div)
  {
    d.style.None? || SearchDigits(d.style.value).None?
  }

  /** One player's bar, unpacked segment by segment. */
  function UnpackBar(divs: seq<Div>): (r: Result<seq<Bar>, string>)
    ensures r.Failure? <==> exists k :: 0 <= k < |divs| && Unreadable(divs[k])
    ensures r.Success? ==> |r.value| == |divs| && forall k :: 0 <= k < |divs| ==> Unpack(divs[k]) == Success(r.value[k])
  {
    if divs == [] then Success([])
    else
      UnreadableInBar(divs);
      var first :- Unpack(divs[0]);
      var rest :- UnpackBar(divs[1..]);
      UnpackedCons(Unpack, divs, first, rest);
      Success([first] + rest)
  }

  /** An unreadable segment is the first one or one of the others. */
  lemma UnreadableInBar(divs: seq<Div>)
    requires divs != []
    ensures (exists k :: 0 <= k < |divs| && Unreadable(divs[k])) <==>
      (Unreadable(divs[0]) || exists k :: 0 <= k < |divs[1..]| && Unreadable(divs[1..][k]))
  {
    if exists k :: 0 <= k < |divs| && Unreadable(divs[k]) {
      var k :| 0 <= k < |divs| && Unreadable(divs[k]);
      if k > 0 {
        assert divs[1..][k - 1] == divs[k];
      }
    }
    if exists k :: 0 <= k < |divs[1..]| && Unreadable(divs[1..][k]) {
      var k :| 0 <= k < |divs[1..]| && Unreadable(divs[1..][k]);
      assert divs[k + 1] == divs[1..][k];
    }
  }

  /** Unpacking the first item and then the rest unpacks every item in place. */
  lemma UnpackedCons<A, B>(unpack: A -> Result<B, string>, xs: seq<A>, first: B, rest: seq<B>)
    requires xs != [] && unpack(xs[0]) == Success(first) && |rest| == |xs| - 1
    requires forall k :: 0 <= k < |xs[1..]| ==> unpack(xs[1..][k]) == Success(rest[k])
    ensures forall k :: 0 <= k < |xs| ==> unpack(xs[k]) == Success(([first] + rest)[k])
  {
    forall k | 0 < k < |xs| ensures unpack(xs[k]) == Success(([first] + rest)[k]) {
      assert xs[k] == xs[1..][k - 1] && ([first] + rest)[k] == rest[k - 1];
    }
  }

  /** `all_intervals`: every bar unpacked; the comprehension raises on the first unreadable segment. */
  function UnpackBars(bars: seq<seq<Div>>): (r: Result<seq<seq<Bar>>, string>)
    ensures r.Failure? <==> exists i, k :: 0 <= i < |bars| && 0 <= k < |bars[i]| && Unreadable(bars[i][k])
    ensures r.Success? ==> |r.value| == |bars| && forall i :: 0 <= i < |bars| ==> UnpackBar(bars[i]) == Success(r.value[i])
  {
    if bars == [] then Success([])
    else
      UnreadableSplit(bars);
      var first :- UnpackBar(bars[0]);
      var rest :- UnpackBars(bars[1..]);
      UnpackedCons(UnpackBar, bars, first, rest);
      Success([first] + rest)
  }

  /** An unreadable segment is in the first bar or in one of the others. */
  lemma UnreadableSplit(bars: seq<seq<Div>>)
    requires bars != []
    ensures (exists i, k :: 0 <= i < |bars| && 0 <= k < |bars[i]| && Unreadable(bars[i][k])) <==>
      ((exists k :: 0 <= k < |bars[0]| && Unreadable(bars[0][k]))
       || (exists i, k :: 0 <= i < |bars[1..]| && 0 <= k < |bars[1..][i]| && Unreadable(bars[1..][i][k])))
  {
    if exists i, k :: 0 <= i < |bars| && 0 <= k < |bars[i]| && Unreadable(bars[i][k]) {
      var i, k :| 0 <= i < |bars| && 0 <= k < |bars[i]| && Unreadable(bars[i][k]);
      if i > 0 {
        assert bars[1..][i - 1] == bars[i];
      }
    }
    if exists i, k :: 0 <= i < |bars[1..]| && 0 <= k < |bars[1..][i]| && Unreadable(bars[1..][i][k]) {
      var i, k :| 0 <= i < |bars[1..]| && 0 <= k < |bars[1..][i]| && Unreadable(bars[1..][i][k]);
      assert bars[1..][i] == bars[i + 1];
    }
  }

  // ---------------------------------------------------------------------
  // Player names
  // ---------------------------------------------------------------------

  /** `unidecode(span.text).strip()`. */
  function PlayerName(fold: char -> string, span: string): string
  {
    Trim(Translit(fold, span))
  }

  /**
   * `unidecode(re.search(r'(?:(?!\().)*', text).group()).strip()`: the text
   * before the first `(` (or line break, which `.` does not cross), then
   * transliterated and trimmed.
   */
  function LegacyPlayerName(fold: char -> string, text: string): string
  {
    Trim(Translit(fold, PrefixBefore(text, {'(', '\n'})))
  }

  /** An ASCII name followed by a parenthesised note is read as the name alone. */
  lemma LegacyNameBeforeParen(fold: char -> string, name: string, note: string)
    requires IsAscii(name) && '(' !in name && '\n' !in name
    requires |name| > 0 ==> !IsSpace(name[0]) && !IsSpace(name[|name| - 1])
    ensures LegacyPlayerName(fold, name + " (" + note) == name
  {
    var text := name + " (" + note;
    var p := PrefixBefore(text, {'(', '\n'});
    assert text[|name| + 1] == '(';
    assert forall i :: 0 <= i < |name| ==> text[i] == name[i];
    assert forall i :: 0 <= i < |name| + 1 ==> text[i] !in {'(', '\n'};
    assert p == name + " ";
    TranslitAscii(fold, p);
    TrimOf("", name, " ");
    assert "" + name + " " == p;
  }

  // ---------------------------------------------------------------------
  // Rescaling and cutting one player's bar
  // ---------------------------------------------------------------------

  function Widths(bars: seq<Bar>): (r: seq<nat>)
    ensures |r| == |bars| && forall k :: 0 <= k < |bars| ==> r[k] == bars[k].width
  {
    seq(|bars|, k requires 0 <= k < |bars| => bars[k].width)
  }

  /** The sum of a column of reals. */
  function RSum(xs: seq<real>): real
  {
    if xs == [] then 0.0 else RSum(xs[..|xs| - 1]) + xs[|xs| - 1]
  }

  lemma RSumPrefixes(xs: seq<real>)
    ensures forall k :: 0 <= k < |xs| ==> RSum(xs[..k + 1]) == RSum(xs[..k]) + xs[k]
  {
    forall k | 0 <= k < |xs| ensures RSum(xs[..k + 1]) == RSum(xs[..k]) + xs[k] {
      assert xs[..k + 1][..k] == xs[..k];
    }
  }

  /** `df.duration *= 48. / df.duration.sum()`. */
  function Durations(widths: seq<nat>): (r: seq<real>)
    requires Sum(widths) > 0
    ensures |r| == |widths| && forall k :: 0 <= k < |r| ==> r[k] >= 0.0
  {
    var c := 48.0 / Sum(widths) as real;
    seq(|widths|, k requires 0 <= k < |widths| => widths[k] as real * c)
  }

  lemma {:induction false} ScaledSum(widths: seq<nat>, c: real)
    ensures RSum(seq(|widths|, k requires 0 <= k < |widths| => widths[k] as real * c)) == Sum(widths) as real * c
  {
    var scaled := seq(|widths|, k requires 0 <= k < |widths| => widths[k] as real * c);
    ScaledRSum(widths, scaled, c);
  }

  lemma {:induction false} ScaledRSum(widths: seq<nat>, scaled: seq<real>, c: real)
    requires |scaled| == |widths|
    requires forall k :: 0 <= k < |widths| ==> scaled[k] == widths[k] as real * c
    ensures RSum(scaled) == Sum(widths) as real * c
    decreases |widths|
  {
    if widths != [] {
      var n := |widths|;
      var init, scaledInit := widths[..n - 1], scaled[..n - 1];
      assert forall k :: 0 <= k < n - 1 ==> scaledInit[k] == init[k] as real * c;
      ScaledRSum(init, scaledInit, c);
      var a, b := Sum(init) as real, widths[n - 1] as real;
      assert Sum(widths) as real == a + b;
      assert RSum(scaled) == a * c + b * c;
      assert (a + b) * c == a * c + b * c;
    }
  }

  /** After rescaling, a player's durations add up to the 48 minutes of regulation. */
  lemma DurationsSumTo48(widths: seq<nat>)
    requires Sum(widths) > 0
    ensures RSum(Durations(widths)) == 48.0
  {
    ScaledSum(widths, 48.0 / Sum(widths) as real);
  }

  /**
   * `subin_minute = duration.shift(1).cumsum().fillna(0)` and
   * `subout_minute = duration.cumsum()`: the durations before the segment,
   * and those up to and including it.
   */
  function Spans(bars: seq<Bar>): (r: seq<Span>)
    requires Sum(Widths(bars)) > 0
    ensures |r| == |bars| && forall k :: 0 <= k < |r| ==> r[k].points == bars[k].points
  {
    var d := Durations(Widths(bars));
    seq(|bars|, k requires 0 <= k < |bars| => Span(RSum(d[..k]), RSum(d[..k + 1]), bars[k].points))
  }

  /**
   * The cut segments are contiguous: the first begins at 0, each ends its
   * duration after it begins, each begins where the one before ends, and
   * the last ends at 48.
   */
  lemma SpansContiguous(bars: seq<Bar>)
    requires Sum(Widths(bars)) > 0
    ensures var s := Spans(bars); var d := Durations(Widths(bars));
      && s[0].subin == 0.0
      && (forall k :: 0 <= k < |s| ==> s[k].subout == s[k].subin + d[k] && s[k].subin <= s[k].subout)
      && (forall k :: 0 < k < |s| ==> s[k].subin == s[k - 1].subout)
      && s[|s| - 1].subout == 48.0
  {
    SpansFromZero(bars);
    SpansDurations(bars);
    SpansAdjacent(bars);
    SpansToEnd(bars);
  }

  lemma SpansFromZero(bars: seq<Bar>)
    requires Sum(Widths(bars)) > 0
    ensures Spans(bars)[0].subin == 0.0
  {
    var d := Durations(Widths(bars));
    SpanAt(bars, 0);
    assert d[..0] == [];
  }

  lemma SpansDurations(bars: seq<Bar>)
    requires Sum(Widths(bars)) > 0
    ensures var s := Spans(bars); var d := Durations(Widths(bars));
      forall k :: 0 <= k < |s| ==> s[k].subout == s[k].subin + d[k] && s[k].subin <= s[k].subout
  {
    var s := Spans(bars);
    var d := Durations(Widths(bars));
    forall k | 0 <= k < |s| ensures s[k].subout == s[k].subin + d[k] && s[k].subin <= s[k].subout {
      SpanAt(bars, k);
      RSumStep(d, k);
    }
  }

  lemma SpansAdjacent(bars: seq<Bar>)
    requires Sum(Widths(bars)) > 0
    ensures var s := Spans(bars); forall k :: 0 < k < |s| ==> s[k].subin == s[k - 1].subout
  {
    var s := Spans(bars);
    forall k | 0 < k < |s| ensures s[k].subin == s[k - 1].subout {
      SpanAt(bars, k);
      SpanAt(bars, k - 1);
    }
  }

  lemma SpansToEnd(bars: seq<Bar>)
    requires Sum(Widths(bars)) > 0
    ensures Spans(bars)[|bars| - 1].subout == 48.0
  {
    var d := Durations(Widths(bars));
    SpanAt(bars, |bars| - 1);
    DurationsSumTo48(Widths(bars));
    assert d[..|d|] == d;
  }

  /** The k-th segment spans the durations before it and those up to and including it. */
  lemma SpanAt(bars: seq<Bar>, k: int)
    requires Sum(Widths(bars)) > 0 && 0 <= k < |bars|
    ensures var d := Durations(Widths(bars));
      Spans(bars)[k] == Span(RSum(d[..k]), RSum(d[..k + 1]), bars[k].points)
  {
  }

  lemma RSumStep(xs: seq<real>, k: int)
    requires 0 <= k < |xs|
    ensures RSum(xs[..k + 1]) == RSum(xs[..k]) + xs[k]
  {
    assert xs[..k + 1][..k] == xs[..k];
  }

  /** Prefix sums of non-negative durations never go down. */
  lemma {:induction false} RSumGrows(d: seq<real>, j: int, k: int)
    requires forall i :: 0 <= i < |d| ==> d[i] >= 0.0
    requires 0 <= j <= k <= |d|
    ensures RSum(d[..j]) <= RSum(d[..k])
    decreases k - j
  {
    if j < k {
      RSumPrefixes(d);
      RSumGrows(d, j, k - 1);
    }
  }

  /** Segments do not overlap and come in order: one ends no later than any later one begins. */
  predicate InOrder(s: seq<Span>)
  {
    (forall k :: 0 <= k < |s| ==> 0.0 <= s[k].subin <= s[k].subout <= 48.0) &&
    forall j, k :: 0 <= j < k < |s| ==> s[j].subout <= s[k].subin
  }

  lemma SpansInOrder(bars: seq<Bar>)
    requires Sum(Widths(bars)) > 0
    ensures InOrder(Spans(bars))
  {
    var s := Spans(bars);
    forall k | 0 <= k < |s| ensures 0.0 <= s[k].subin <= s[k].subout <= 48.0 {
      SpanBounded(bars, k);
    }
    forall j, k | 0 <= j < k < |s| ensures s[j].subout <= s[k].subin {
      SpansApart(bars, j, k);
    }
  }

  /** Each span lies within the 48 minutes. */
  lemma SpanBounded(bars: seq<Bar>, k: int)
    requires Sum(Widths(bars)) > 0 && 0 <= k < |Spans(bars)|
    ensures 0.0 <= Spans(bars)[k].subin <= Spans(bars)[k].subout <= 48.0
  {
    var d := Durations(Widths(bars));
    var a, b := RSum(d[..k]), RSum(d[..k + 1]);
    assert Spans(bars)[k].subin == a && Spans(bars)[k].subout == b by { SpanAt(bars, k); }
    assert 0.0 <= a by { RSumGrows(d, 0, k); assert d[..0] == []; }
    assert a <= b by { RSumGrows(d, k, k + 1); }
    assert b <= 48.0 by {
      RSumGrows(d, k + 1, |d|);
      DurationsSumTo48(Widths(bars));
      assert d[..|d|] == d;
    }
  }

  /** An earlier span ends before a later one begins. */
  lemma SpansApart(bars: seq<Bar>, j: int, k: int)
    requires Sum(Widths(bars)) > 0 && 0 <= j < k < |Spans(bars)|
    ensures Spans(bars)[j].subout <= Spans(bars)[k].subin
  {
    var d := Durations(Widths(bars));
    SpanAt(bars, j);
    SpanAt(bars, k);
    RSumGrows(d, j + 1, k);
  }

  function SegmentOf(player: string, s: Span): Segment
    requires s.points.Some?
  {
    Segment(player, s.subin, s.subout, s.points.value)
  }

  /** `dropna`: the segments with a point value, in order, as rows of the player. */
  function Scored(player: string, spans: seq<Span>): (r: seq<Segment>)
    ensures forall k :: 0 <= k < |spans| && spans[k].points.Some? ==> SegmentOf(player, spans[k]) in r
    ensures forall x :: x in r ==> exists k :: 0 <= k < |spans| && spans[k].points.Some? && x == SegmentOf(player, spans[k])
    ensures InOrder(spans) ==> forall j, k :: 0 <= j < k < |r| ==> r[j].subout <= r[k].subin
  {
    if spans == [] then []
    else
      var rest := Scored(player, spans[1..]);
      assert forall k :: 1 <= k < |spans| ==> spans[k] == spans[1..][k - 1];
      InOrderTail(spans);
      if spans[0].points.Some? then
        ConsInOrder(player, spans, rest);
        [SegmentOf(player, spans[0])] + rest
      else rest
  }

  lemma InOrderTail(spans: seq<Span>)
    requires spans != []
    ensures InOrder(spans) ==> InOrder(spans[1..])
  {
    if InOrder(spans) {
      var t := spans[1..];
      forall j, k | 0 <= j < k < |t| ensures t[j].subout <= t[k].subin {
        assert t[j] == spans[j + 1] && t[k] == spans[k + 1];
      }
    }
  }

  /** A scored first segment ends before any later scored segment begins. */
  lemma ConsInOrder(player: string, spans: seq<Span>, rest: seq<Segment>)
    requires spans != [] && spans[0].points.Some?
    requires forall x :: x in rest ==>
      exists k :: 0 <= k < |spans[1..]| && spans[1..][k].points.Some? && x == SegmentOf(player, spans[1..][k])
    requires InOrder(spans) ==> forall j, k :: 0 <= j < k < |rest| ==> rest[j].subout <= rest[k].subin
    ensures InOrder(spans) ==> var r := [SegmentOf(player, spans[0])] + rest;
      forall j, k :: 0 <= j < k < |r| ==> r[j].subout <= r[k].subin
  {
    if InOrder(spans) {
      var r := [SegmentOf(player, spans[0])] + rest;
      forall j, k | 0 <= j < k < |r| ensures r[j].subout <= r[k].subin {
        if j == 0 {
          assert r[k] in rest;
          var i :| 0 <= i < |spans[1..]| && spans[1..][i].points.Some? && r[k] == SegmentOf(player, spans[1..][i]);
          assert spans[1..][i] == spans[i + 1];
        } else {
          assert r[j] == rest[j - 1] && r[k] == rest[k - 1];
        }
      }
    }
  }

  /**
   * One pass of the loop body (lines 59-68): a bar of zero total width
   * leaves no row, since every duration becomes NaN and `dropna` removes it.
   */
  function PlayerSegments(player: string, bars: seq<Bar>): seq<Segment>
  {
    if Sum(Widths(bars)) == 0 then [] else Scored(player, Spans(bars))
  }

  /** A player's kept segments lie in [0, 48], in order and without overlap. */
  lemma PlayerSegmentsInOrder(player: string, bars: seq<Bar>)
    ensures var r := PlayerSegments(player, bars);
      && (forall x :: x in r ==> x.player == player && 0.0 <= x.subin <= x.subout <= 48.0)
      && (forall j, k :: 0 <= j < k < |r| ==> r[j].subout <= r[k].subin)
  {
    if Sum(Widths(bars)) > 0 {
      SpansInOrder(bars);
      var s := Spans(bars);
      forall x | x in PlayerSegments(player, bars) ensures x.player == player && 0.0 <= x.subin <= x.subout <= 48.0 {
        var k :| 0 <= k < |s| && s[k].points.Some? && x == SegmentOf(player, s[k]);
      }
    }
  }

  // ---------------------------------------------------------------------
  // The loop over players
  // ---------------------------------------------------------------------

  /**
   * The first n passes of a loop over `zip(players, bars)` whose body yields
   * `pass(player, bar)`, joined in order. Only the loop's shape is fixed here;
   * the body is a parameter, so facts about the loop need not look inside it.
   */
  function Joined(pass: (string, seq<Bar>) -> seq<Segment>, players: seq<string>, bars: seq<seq<Bar>>, n: nat): seq<Segment>
    requires n <= |players| && n <= |bars|
  {
    if n == 0 then [] else Joined(pass, players, bars, n - 1) + pass(players[n - 1], bars[n - 1])
  }

  /** The segments of the first n (player, bar) pairs of the zip, player by player. */
  function Zipped(players: seq<string>, bars: seq<seq<Bar>>, n: nat): seq<Segment>
    requires n <= |players| && n <= |bars|
  {
    Joined(PlayerSegments, players, bars, n)
  }

  lemma ZippedStep(players: seq<string>, bars: seq<seq<Bar>>, i: nat)
    requires i < |players| && i < |bars|
    ensures Zipped(players, bars, i + 1) == Zipped(players, bars, i) + PlayerSegments(players[i], bars[i])
  {
  }

  function Min(a: nat, b: nat): nat { if a <= b then a else b }

  /** `zip` stops at the shorter list: the players and bars past it play no part. */
  lemma ZippedIgnoresExtras(players: seq<string>, bars: seq<seq<Bar>>, n: nat)
    requires n <= |players| && n <= |bars|
    ensures Zipped(players, bars, n) == Zipped(players[..n], bars[..n], n)
  {
    JoinedAgree(PlayerSegments, players, bars, players[..n], bars[..n], n);
  }

  /** The loop over n pairs reads only the first n players and bars. */
  lemma {:induction false} JoinedAgree(pass: (string, seq<Bar>) -> seq<Segment>,
                                       players: seq<string>, bars: seq<seq<Bar>>,
                                       players': seq<string>, bars': seq<seq<Bar>>, n: nat)
    requires n <= |players| && n <= |bars| && n <= |players'| && n <= |bars'|
    requires forall i :: 0 <= i < n ==> players[i] == players'[i] && bars[i] == bars'[i]
    ensures Joined(pass, players, bars, n) == Joined(pass, players', bars', n)
    decreases n
  {
    if n > 0 {
      JoinedAgree(pass, players, bars, players', bars', n - 1);
      assert players[n - 1] == players'[n - 1] && bars[n - 1] == bars'[n - 1];
    }
  }

  /** Every segment of the zip belongs to one of its players and lies in [0, 48]. */
  lemma ZippedBounds(players: seq<string>, bars: seq<seq<Bar>>, n: nat)
    requires n <= |players| && n <= |bars|
    ensures forall x :: x in Zipped(players, bars, n) ==>
      (exists i :: 0 <= i < n && x.player == players[i]) && 0.0 <= x.subin <= x.subout <= 48.0
  {
    forall x | x in Zipped(players, bars, n)
      ensures (exists i :: 0 <= i < n && x.player == players[i]) && 0.0 <= x.subin <= x.subout <= 48.0
    {
      var i := JoinedOwner(PlayerSegments, players, bars, n, x);
      SegmentBounds(players[i], bars[i], x);
    }
  }

  /** A segment of the loop's output was yielded by one of its first n passes. */
  lemma {:induction false} JoinedOwner(pass: (string, seq<Bar>) -> seq<Segment>,
                                       players: seq<string>, bars: seq<seq<Bar>>, n: nat, x: Segment) returns (i: nat)
    requires n <= |players| && n <= |bars| && x in Joined(pass, players, bars, n)
    ensures i < n && x in pass(players[i], bars[i])
    decreases n
  {
    if x in Joined(pass, players, bars, n - 1) {
      i := JoinedOwner(pass, players, bars, n - 1, x);
    } else {
      i := n - 1;
    }
  }

  lemma SegmentBounds(player: string, bars: seq<Bar>, x: Segment)
    requires x in PlayerSegments(player, bars)
    ensures x.player == player && 0.0 <= x.subin <= x.subout <= 48.0
  {
    PlayerSegmentsInOrder(player, bars);
  }

  /** The loop body for one player: rescale, cut, drop the segments without points. */
  method PlayerPass(player: string, intervals: seq<Bar>) returns (kept: seq<Segment>)
    ensures kept == PlayerSegments(player, intervals)
  {
    if Sum(Widths(intervals)) == 0 {
      kept := [];
    } else {
      var spans := Spans(intervals);
      kept := Scored(player, spans);
    }
  }

  /**
   * `for player, intervals in zip(all_players, all_intervals)`: each pass
   * computes the player's kept segments and appends them.
   */
  method Segments(players: seq<string>, bars: seq<seq<Bar>>) returns (acc: seq<Segment>)
    ensures acc == Zipped(players, bars, Min(|players|, |bars|))
  {
    var n := Min(|players|, |bars|);
    acc := [];
    var i := 0;
    while i < n
      invariant 0 <= i <= n
      invariant acc == Zipped(players, bars, i)
    {
      var player := players[i];
      var intervals := bars[i];
      var kept := PlayerPass(player, intervals);
      ZippedStep(players, bars, i);
      acc := acc + kept;
      i := i + 1;
    }
  }

  /** `insert(0, 'game_id', game_id)` and `reset_index(drop=True)`: every row stamped, in order. */
  function Stamp(gameId: string, segments: seq<Segment>): (r: seq<Row>)
    ensures |r| == |segments|
    ensures forall k :: 0 <= k < |r| ==>
      r[k] == Row(gameId, segments[k].player, segments[k].subin, segments[k].subout, segments[k].plusMinus)
  {
    seq(|segments|, k requires 0 <= k < |segments| =>
      Row(gameId, segments[k].player, segments[k].subin, segments[k].subout, segments[k].plusMinus))
  }

  /**
   * `get_plus_minus`: parse the page, read the names from the players'
   * spans, unpack every bar, then run the loop and stamp the game id.
   */
  method GetPlusMinus(gameId: string, html: string, parse: string -> Page, fold: char -> string)
    returns (r: Result<seq<Row>, string>)
    ensures r.Failure? <==> UnpackBars(parse(html).bars).Failure?
    ensures r.Success? ==>
      var page := parse(html);
      var names := seq(|page.players|, i requires 0 <= i < |page.players| => PlayerName(fold, page.players[i]));
      r.value == Stamp(gameId, Zipped(names, UnpackBars(page.bars).value, Min(|names|, |page.bars|)))
  {
    var page := parse(html);
    var names := seq(|page.players|, i requires 0 <= i < |page.players| => PlayerName(fold, page.players[i]));
    var bars :- UnpackBars(page.bars);
    var segments := Segments(names, bars);
    return Success(Stamp(gameId, segments));
  }

  /**
   * `plus_minus`: the same, but the comment markers are first deleted from
   * the page, and each name is the text of the player's div before its `(`.
   */
  method PlusMinusLegacy(gameId: string, html: string, parse: string -> Page, fold: char -> string)
    returns (r: Result<seq<Row>, string>)
    ensures r.Failure? <==> UnpackBars(parse(StripComments(html)).bars).Failure?
    ensures r.Success? ==>
      var page := parse(StripComments(html));
      var names := seq(|page.players|, i requires 0 <= i < |page.players| => LegacyPlayerName(fold, page.players[i]));
      r.value == Stamp(gameId, Zipped(names, UnpackBars(page.bars).value, Min(|names|, |page.bars|)))
  {
    var text := StripComments(html);
    var page := parse(text);
    var names := seq(|page.players|, i requires 0 <= i < |page.players| => LegacyPlayerName(fold, page.players[i]));
    var bars :- UnpackBars(page.bars);
    var segments := Segments(names, bars);
    return Success(Stamp(gameId, segments));
  }
}
