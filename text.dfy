// String helpers with Python's behaviour, restricted to what the scrapers use:
// decimal digits, `int(...)`, `str.replace`, `str.split`, `str.rstrip`,
// `str.strip`, `str.upper`/`str.lower` on ASCII letters, `unidecode`, and the
// `re.sub('(<!--)|(-->)', '', ...)` that every page goes through.
module Text {
  import opened Wrappers

  predicate IsDigit(c: char) { '0' <= c <= '9' }

  /** Every character is a decimal digit (the empty string included). */
  predicate AllDigits(s: string) { forall i :: 0 <= i < |s| ==> IsDigit(s[i]) }

  /** What the regular expression `\d+` matches as a whole. */
  predicate IsDigits(s: string) { |s| > 0 && AllDigits(s) }

  function DigitValue(c: char): (d: nat)
    requires IsDigit(c)
    ensures d < 10
  {
    c as int - '0' as int
  }

  function DigitChar(d: nat): (c: char)
    requires d < 10
    ensures IsDigit(c) && DigitValue(c) == d
  {
    ('0' as int + d) as char
  }

  /** The number a string of decimal digits denotes. */
  function NatValue(s: string): nat
    requires AllDigits(s)
  {
    if s == [] then 0 else NatValue(s[..|s| - 1]) * 10 + DigitValue(s[|s| - 1])
  }

  /** The shortest decimal spelling of `n`, as Python's `str(n)` writes it. */
  function Decimal(n: nat): (r: string)
    ensures IsDigits(r)
    ensures |r| > 1 ==> r[0] != '0'
  {
    if n < 10 then [DigitChar(n)] else Decimal(n / 10) + [DigitChar(n % 10)]
  }

  lemma {:induction false} DecimalValue(n: nat)
    ensures NatValue(Decimal(n)) == n
  {
    if n >= 10 {
      var d := Decimal(n / 10);
      var r := d + [DigitChar(n % 10)];
      assert r[..|r| - 1] == d;
      DecimalValue(n / 10);
    }
  }

  /** `k` zeros. */
  function Zeros(k: nat): (r: string)
    ensures |r| == k && AllDigits(r)
  {
    seq(k, _ => '0')
  }

  lemma {:induction false} ZerosNothing(k: nat)
    ensures NatValue(Zeros(k)) == 0
  {
    if k > 0 {
      assert Zeros(k)[..k - 1] == Zeros(k - 1);
      ZerosNothing(k - 1);
    }
  }

  lemma {:induction false} ZerosValue(z: string, s: string)
    requires AllDigits(z) && NatValue(z) == 0 && AllDigits(s)
    ensures AllDigits(z + s) && NatValue(z + s) == NatValue(s)
    decreases |s|
  {
    if s == [] {
      assert z + s == z;
    } else {
      var t := z + s;
      assert t[..|t| - 1] == z + s[..|s| - 1];
      assert t[|t| - 1] == s[|s| - 1];
      ZerosValue(z, s[..|s| - 1]);
    }
  }

  /** `n` written in decimal and padded on the left with zeros to at least `w` characters. */
  function Pad(n: nat, w: nat): (r: string)
    ensures AllDigits(r) && NatValue(r) == n
    ensures |r| >= w && (|Decimal(n)| <= w ==> |r| == w)
  {
    var d := Decimal(n);
    DecimalValue(n);
    if |d| >= w then d
    else
      ZerosNothing(w - |d|);
      ZerosValue(Zeros(w - |d|), d);
      Zeros(w - |d|) + d
  }

  lemma {:induction false} DecimalShort(n: nat)
    ensures n < 10 ==> |Decimal(n)| == 1
    ensures n < 100 ==> |Decimal(n)| <= 2
    ensures n < 1000 ==> |Decimal(n)| <= 3
    ensures n < 10000 ==> |Decimal(n)| <= 4
  {
    if n >= 10 {
      DecimalShort(n / 10);
    }
  }

  /**
   * Python's `int(s)` on the spellings the scrapers meet: an optionally
   * signed run of ASCII digits is read, and any other spelling is refused
   * (None), where `int` raises ValueError. Surrounding whitespace, `_`
   * between digits and non-ASCII digits, which `int` also accepts, are not
   * modelled.
   */
  function ParseInt(s: string): (r: Option<int>)
    ensures r.Some? <==> (IsDigits(s) || (|s| > 1 && (s[0] == '-' || s[0] == '+') && IsDigits(s[1..])))
    ensures IsDigits(s) ==> r == Some(NatValue(s))
  {
    if |s| > 1 && s[0] == '-' && IsDigits(s[1..]) then Some(0 - NatValue(s[1..]))
    else if |s| > 1 && s[0] == '+' && IsDigits(s[1..]) then Some(NatValue(s[1..]))
    else if IsDigits(s) then Some(NatValue(s))
    else None
  }

  /**
   * A cell `read_html`'s type inference reads as a number rather than as
   * text: an optionally signed run of digits.
   */
  predicate Numeral(s: string) { ParseInt(s).Some? }

  /**
   * A cell that gives its column no text: blank, or a number. A column of
   * such cells gets a numeric dtype, and `.str` on it raises AttributeError.
   */
  predicate NoText(cell: Option<string>) { cell.None? || Numeral(cell.value) }

  lemma ParseIntDecimal(n: nat)
    ensures ParseInt(Decimal(n)) == Some(n)
    ensures ParseInt("-" + Decimal(n)) == Some(0 - n)
  {
    DecimalValue(n);
    assert ("-" + Decimal(n))[1..] == Decimal(n);
  }

  predicate StartsWith(s: string, p: string) { |p| <= |s| && s[..|p|] == p }

  predicate EndsWith(s: string, p: string) { |p| <= |s| && s[|s| - |p|..] == p }

  /** `pat` occurs in `s` starting at position `i`. */
  predicate OccursAt(s: string, pat: string, i: int)
  {
    0 <= i && i + |pat| <= |s| && s[i..i + |pat|] == pat
  }

  /** Python's `s.replace(pat, rep)`: every non-overlapping occurrence, left to right. */
  function Replace(s: string, pat: string, rep: string): string
    requires |pat| > 0
    decreases |s|
  {
    if |s| < |pat| then s
    else if s[..|pat|] == pat then rep + Replace(s[|pat|..], pat, rep)
    else [s[0]] + Replace(s[1..], pat, rep)
  }

  lemma {:induction false} ReplaceAbsent(s: string, pat: string, rep: string)
    requires |pat| > 0
    requires forall i :: !OccursAt(s, pat, i)
    ensures Replace(s, pat, rep) == s
    decreases |s|
  {
    if |s| >= |pat| {
      assert !OccursAt(s, pat, 0);
      assert s[0..|pat|] == s[..|pat|];
      forall i ensures !OccursAt(s[1..], pat, i) {
        if 0 <= i && i + |pat| <= |s| - 1 {
          assert s[1..][i..i + |pat|] == s[i + 1..i + 1 + |pat|];
          assert !OccursAt(s, pat, i + 1);
        }
      }
      ReplaceAbsent(s[1..], pat, rep);
    }
  }

  /** Text in which the first character of `pat` never appears is left as it is. */
  lemma ReplaceNoFirst(s: string, pat: string, rep: string)
    requires |pat| > 0
    requires forall i :: 0 <= i < |s| ==> s[i] != pat[0]
    ensures Replace(s, pat, rep) == s
  {
    forall i ensures !OccursAt(s, pat, i) {
      if 0 <= i && i + |pat| <= |s| {
        assert s[i..i + |pat|][0] == s[i];
      }
    }
    ReplaceAbsent(s, pat, rep);
  }

  /** A leading stretch without the first character of `pat` passes through unchanged. */
  lemma {:induction false} ReplaceAppendNo(x: string, rest: string, pat: string, rep: string)
    requires |pat| > 0
    requires forall i :: 0 <= i < |x| ==> x[i] != pat[0]
    ensures Replace(x + rest, pat, rep) == x + Replace(rest, pat, rep)
    decreases |x|
  {
    if x != [] {
      var s := x + rest;
      assert s[0] == x[0] && s[1..] == x[1..] + rest;
      ReplaceAppendNo(x[1..], rest, pat, rep);
      if |s| < |pat| {
        assert |rest| < |pat|;
        assert Replace(rest, pat, rep) == rest;
        assert Replace(s, pat, rep) == s;
      } else {
        assert s[..|pat|] != pat by { assert s[..|pat|][0] != pat[0]; }
        assert Replace(s, pat, rep) == [s[0]] + Replace(s[1..], pat, rep);
        var t := Replace(rest, pat, rep);
        assert [x[0]] + (x[1..] + t) == x + t;
      }
    } else {
      assert x + rest == rest;
    }
  }

  lemma ReplaceWhole(pat: string, rest: string, rep: string)
    requires |pat| > 0
    ensures Replace(pat + rest, pat, rep) == rep + Replace(rest, pat, rep)
  {
    var s := pat + rest;
    assert s[..|pat|] == pat;
    assert s[|pat|..] == rest;
  }

  /** The first occurrence of `pat`, after a stretch that cannot start one, is replaced. */
  lemma ReplaceAfter(x: string, pat: string, rest: string, rep: string)
    requires |pat| > 0
    requires forall i :: 0 <= i < |x| ==> x[i] != pat[0]
    ensures Replace(x + pat + rest, pat, rep) == x + rep + Replace(rest, pat, rep)
  {
    assert x + pat + rest == x + (pat + rest);
    ReplaceAppendNo(x, pat + rest, pat, rep);
    ReplaceWhole(pat, rest, rep);
    assert x + (rep + Replace(rest, pat, rep)) == x + rep + Replace(rest, pat, rep);
  }

  /** Three stretches that cannot start `pat`, joined by it, have both joins replaced. */
  lemma ReplaceJoins(x: string, y: string, z: string, pat: string, rep: string)
    requires |pat| > 0
    requires forall i :: 0 <= i < |x| ==> x[i] != pat[0]
    requires forall i :: 0 <= i < |y| ==> y[i] != pat[0]
    requires forall i :: 0 <= i < |z| ==> z[i] != pat[0]
    ensures Replace(x + pat + y + pat + z, pat, rep) == x + rep + y + rep + z
  {
    ReplaceNoFirst(z, pat, rep);
    ReplaceAfter(y, pat, z, rep);
    ReplaceAfter(x, pat, y + pat + z, rep);
    JoinsRegroup(x, pat, y, z);
    JoinsRegroup(x, rep, y, z);
  }

  lemma JoinsRegroup(x: string, sep: string, y: string, z: string)
    ensures x + sep + y + sep + z == x + sep + (y + sep + z)
  {
  }

  lemma JoinsEmpty(x: string, y: string, z: string)
    ensures x + "" + y + "" + z == x + y + z
  {
  }

  /** `re.sub('(<!--)|(-->)', '', s)`: comment markers deleted left to right. */
  function StripComments(s: string): (r: string)
    ensures |r| <= |s|
    decreases |s|
  {
    if StartsWith(s, "<!--") then StripComments(s[4..])
    else if StartsWith(s, "-->") then StripComments(s[3..])
    else if s == [] then []
    else [s[0]] + StripComments(s[1..])
  }

  /** Neither comment marker occurs anywhere in `s`. */
  predicate NoCommentMarker(s: string)
  {
    forall i :: 0 <= i < |s| ==> !OccursAt(s, "<!--", i) && !OccursAt(s, "-->", i)
  }

  /** An occurrence in the tail of `s` is one in `s`, a position further on. */
  lemma OccursInTail(s: string, pat: string, i: int)
    requires |s| >= 1 && 0 <= i
    ensures OccursAt(s[1..], pat, i) <==> OccursAt(s, pat, i + 1)
  {
    if i + |pat| <= |s| - 1 {
      var t := s[1..][i..i + |pat|];
      assert |t| == |pat|;
      assert forall k :: 0 <= k < |pat| ==> t[k] == s[i + 1 + k];
      assert t == s[i + 1..i + 1 + |pat|];
    }
  }

  lemma {:induction false} StripCommentsUnchanged(s: string)
    requires NoCommentMarker(s)
    ensures StripComments(s) == s
    decreases |s|
  {
    if s != [] {
      assert !OccursAt(s, "<!--", 0) && !OccursAt(s, "-->", 0);
      if |s| >= 4 { assert s[0..4] == s[..4]; }
      if |s| >= 3 { assert s[0..3] == s[..3]; }
      forall i | 0 <= i < |s| - 1 ensures !OccursAt(s[1..], "<!--", i) && !OccursAt(s[1..], "-->", i) {
        OccursInTail(s, "<!--", i);
        OccursInTail(s, "-->", i);
      }
      StripCommentsUnchanged(s[1..]);
    }
  }

  /** Python's `str.split(sep)`: the pieces between separators, at least one. */
  function Split(s: string, sep: char): (r: seq<string>)
    ensures |r| >= 1
    ensures forall k, i :: 0 <= k < |r| && 0 <= i < |r[k]| ==> r[k][i] != sep
    decreases |s|
  {
    if s == [] then [""]
    else if s[0] == sep then [""] + Split(s[1..], sep)
    else
      var t := Split(s[1..], sep);
      [[s[0]] + t[0]] + t[1..]
  }

  /** `sep.join(parts)`. */
  function Join(parts: seq<string>, sep: char): string
    requires |parts| >= 1
  {
    if |parts| == 1 then parts[0] else parts[0] + [sep] + Join(parts[1..], sep)
  }

  lemma {:induction false} SplitJoin(s: string, sep: char)
    ensures Join(Split(s, sep), sep) == s
    decreases |s|
  {
    if s == [] {
    } else if s[0] == sep {
      SplitJoin(s[1..], sep);
      assert Split(s, sep)[1..] == Split(s[1..], sep);
    } else {
      var t := Split(s[1..], sep);
      SplitJoin(s[1..], sep);
      var r := Split(s, sep);
      if |t| == 1 {
      } else {
        assert r[1..] == t[1..];
        assert Join(r, sep) == ([s[0]] + t[0]) + [sep] + Join(t[1..], sep);
      }
    }
  }

  /** The two pieces around the single separator of `a + [sep] + b`. */
  lemma {:induction false} SplitTwo(a: string, sep: char, b: string)
    requires forall i :: 0 <= i < |a| ==> a[i] != sep
    requires forall i :: 0 <= i < |b| ==> b[i] != sep
    ensures Split(a + [sep] + b, sep) == [a, b]
    decreases |a|
  {
    if a == [] {
      assert ([sep] + b)[1..] == b;
      SplitNone(b, sep);
    } else {
      assert (a + [sep] + b)[1..] == a[1..] + [sep] + b;
      SplitTwo(a[1..], sep, b);
      assert [a[0]] + a[1..] == a;
    }
  }

  lemma {:induction false} SplitNone(s: string, sep: char)
    requires forall i :: 0 <= i < |s| ==> s[i] != sep
    ensures Split(s, sep) == [s]
    decreases |s|
  {
    if s != [] {
      SplitNone(s[1..], sep);
      assert [s[0]] + s[1..] == s;
    }
  }

  /** The first piece of a split is the text before the first separator. */
  lemma {:induction false} SplitFirst(s: string, sep: char, i: int)
    requires 0 <= i < |s| && s[i] == sep
    requires forall m :: 0 <= m < i ==> s[m] != sep
    ensures Split(s, sep)[0] == s[..i]
    decreases i
  {
    if i > 0 {
      SplitFirst(s[1..], sep, i - 1);
      assert s[1..][..i - 1] == s[1..i];
      assert [s[0]] + s[1..i] == s[..i];
    }
  }

  /** Python's `s.rstrip(c)`: every trailing `c` removed. */
  function RStrip(s: string, c: char): (r: string)
    ensures |r| <= |s| && r == s[..|r|]
    ensures |r| > 0 ==> r[|r| - 1] != c
    ensures forall i :: |r| <= i < |s| ==> s[i] == c
    decreases |s|
  {
    if |s| > 0 && s[|s| - 1] == c then RStrip(s[..|s| - 1], c) else s
  }

  /** The characters for which Python's `str.isspace()` holds. */
  predicate IsSpace(c: char)
  {
    var n := c as int;
    (9 <= n <= 13) || (0x1C <= n <= 0x20) || n == 0x85 || n == 0xA0 || n == 0x1680
    || (0x2000 <= n <= 0x200A) || n == 0x2028 || n == 0x2029 || n == 0x202F
    || n == 0x205F || n == 0x3000
  }

  function TrimStart(s: string): (r: string)
    ensures |r| <= |s| && r == s[|s| - |r|..]
    ensures forall i :: 0 <= i < |s| - |r| ==> IsSpace(s[i])
    ensures |r| > 0 ==> !IsSpace(r[0])
    decreases |s|
  {
    if |s| > 0 && IsSpace(s[0]) then TrimStart(s[1..]) else s
  }

  function TrimEnd(s: string): (r: string)
    ensures |r| <= |s| && r == s[..|r|]
    ensures forall i :: |r| <= i < |s| ==> IsSpace(s[i])
    ensures |r| > 0 ==> !IsSpace(r[|r| - 1])
    decreases |s|
  {
    if |s| > 0 && IsSpace(s[|s| - 1]) then TrimEnd(s[..|s| - 1]) else s
  }

  /** Python's `s.strip()`: surrounding whitespace removed. */
  function Trim(s: string): (r: string)
    ensures |r| <= |s|
    ensures |r| > 0 ==> !IsSpace(r[0]) && !IsSpace(r[|r| - 1])
  {
    TrimEnd(TrimStart(s))
  }

  /**
   * `strip()` returns exactly the middle of a text made of whitespace, a middle
   * that neither starts nor ends with whitespace, and whitespace again.
   */
  lemma TrimOf(pre: string, mid: string, post: string)
    requires forall i :: 0 <= i < |pre| ==> IsSpace(pre[i])
    requires forall i :: 0 <= i < |post| ==> IsSpace(post[i])
    requires |mid| > 0 ==> !IsSpace(mid[0]) && !IsSpace(mid[|mid| - 1])
    ensures Trim(pre + mid + post) == mid
  {
    if |mid| > 0 {
      assert pre + mid + post == pre + (mid + post);
      TrimStartOf(pre, mid + post);
      TrimEndOf(mid, post);
    } else {
      assert pre + mid + post == (pre + post) + "";
      TrimStartOf(pre + post, "");
    }
  }

  /** `lstrip()` drops exactly a leading run of whitespace. */
  lemma {:induction false} TrimStartOf(pre: string, rest: string)
    requires forall i :: 0 <= i < |pre| ==> IsSpace(pre[i])
    requires |rest| > 0 ==> !IsSpace(rest[0])
    ensures TrimStart(pre + rest) == rest
    decreases |pre|
  {
    if |pre| > 0 {
      assert (pre + rest)[1..] == pre[1..] + rest;
      TrimStartOf(pre[1..], rest);
    } else {
      assert pre + rest == rest;
    }
  }

  /** `rstrip()` drops exactly a trailing run of whitespace. */
  lemma {:induction false} TrimEndOf(rest: string, post: string)
    requires forall i :: 0 <= i < |post| ==> IsSpace(post[i])
    requires |rest| > 0 ==> !IsSpace(rest[|rest| - 1])
    ensures TrimEnd(rest + post) == rest
    decreases |post|
  {
    if |post| > 0 {
      var q := post[..|post| - 1];
      assert (rest + post)[..|rest + post| - 1] == rest + q;
      TrimEndOf(rest, q);
    } else {
      assert rest + post == rest;
    }
  }

  /** A text without surrounding whitespace is kept by `strip()`. */
  lemma TrimUnchanged(s: string)
    requires |s| > 0 ==> !IsSpace(s[0]) && !IsSpace(s[|s| - 1])
    ensures Trim(s) == s
  {
    TrimOf("", s, "");
    assert "" + s + "" == s;
  }

  function UpperChar(c: char): char { if 'a' <= c <= 'z' then (c as int - 32) as char else c }

  function LowerChar(c: char): char { if 'A' <= c <= 'Z' then (c as int + 32) as char else c }

  /** `str.upper()` on ASCII letters. */
  function Upper(s: string): (r: string)
    ensures |r| == |s| && forall i :: 0 <= i < |s| ==> r[i] == UpperChar(s[i])
  {
    seq(|s|, i requires 0 <= i < |s| => UpperChar(s[i]))
  }

  /** `str.lower()` on ASCII letters. */
  function Lower(s: string): (r: string)
    ensures |r| == |s| && forall i :: 0 <= i < |s| ==> r[i] == LowerChar(s[i])
  {
    seq(|s|, i requires 0 <= i < |s| => LowerChar(s[i]))
  }

  predicate IsAscii(s: string) { forall i :: 0 <= i < |s| ==> s[i] as int < 128 }

  /**
   * `unidecode(s)`: ASCII characters are kept, every other character is
   * replaced by the transliteration `fold` gives for it (the package's own
   * tables are not part of this model).
   */
  function Translit(fold: char -> string, s: string): string
  {
    if s == [] then []
    else (if s[0] as int < 128 then [s[0]] else fold(s[0])) + Translit(fold, s[1..])
  }

  lemma {:induction false} TranslitAscii(fold: char -> string, s: string)
    requires IsAscii(s)
    ensures Translit(fold, s) == s
  {
    if s != [] {
      TranslitAscii(fold, s[1..]);
      assert [s[0]] + s[1..] == s;
    }
  }

  /** The longest prefix of `s` holding none of the characters of `stops`. */
  function PrefixBefore(s: string, stops: set<char>): (r: string)
    ensures |r| <= |s| && r == s[..|r|]
    ensures forall i :: 0 <= i < |r| ==> r[i] !in stops
    ensures |r| < |s| ==> s[|r|] in stops
  {
    if s == [] || s[0] in stops then [] else [s[0]] + PrefixBefore(s[1..], stops)
  }

  /** The longest run of digits at the start of `s`. */
  function DigitPrefix(s: string): (r: string)
    ensures |r| <= |s| && r == s[..|r|] && AllDigits(r)
    ensures |r| < |s| ==> !IsDigit(s[|r|])
    ensures AllDigits(s) ==> r == s
  {
    if s == [] || !IsDigit(s[0]) then [] else [s[0]] + DigitPrefix(s[1..])
  }

  /** A run of digits ended by a non-digit is the digit prefix. */
  lemma DigitPrefixBefore(s: string, i: int)
    requires 0 <= i < |s| && AllDigits(s[..i]) && !IsDigit(s[i])
    ensures DigitPrefix(s) == s[..i]
  {
    var r := DigitPrefix(s);
    assert forall m :: 0 <= m < i ==> IsDigit(s[m]) by {
      forall m | 0 <= m < i ensures IsDigit(s[m]) { assert s[..i][m] == s[m]; }
    }
  }
}
