// The few pandas data-frame operations the boxscore scrapers use, on a frame
// whose rows map column labels to cells: `insert`, `drop`, `rename`,
// assigning `columns`, `replace`, a boolean row filter, `concat` along rows,
// column selection, `merge` and the per-column conversions.
module Frames {
  import opened Wrappers

  /** One cell; Missing is pandas' NaN. */
  datatype Cell = Missing | Text(text: string) | Flag(flag: bool) | Number(number: real)

  type Row = map<string, Cell>

  /** A data frame: its column labels in order and its rows. */
  datatype Frame = Frame(columns: seq<string>, rows: seq<Row>)

  /** The cell of `row` under label `c`; a label the row lacks reads as NaN. */
  function Get(row: Row, c: string): Cell
  {
    if c in row then row[c] else Missing
  }

  /** The row holding exactly the cells of `row` under the labels `cols`. */
  function Project(row: Row, cols: seq<string>): (r: Row)
    ensures forall c :: Get(r, c) == if c in cols then Get(row, c) else Missing
  {
    map c | c in cols :: Get(row, c)
  }

  // ---------------------------------------------------------------------
  // Relabelling

  /**
   * `row` re-keyed through `g` over the labels `cols`; when two labels are
   * sent to the same name the later one's cell is kept.
   */
  function Relabelled(cols: seq<string>, row: Row, g: string -> string): (r: Row)
    ensures r.Keys == set c | c in cols :: g(c)
  {
    if cols == [] then map[]
    else Relabelled(cols[..|cols| - 1], row, g)[g(cols[|cols| - 1]) := Get(row, cols[|cols| - 1])]
  }

  /** A label that is the only one sent to its new name keeps its cell there. */
  lemma {:induction false} RelabelledGet(cols: seq<string>, row: Row, g: string -> string, c: string)
    requires c in cols
    requires forall d :: d in cols && g(d) == g(c) ==> d == c
    ensures Get(Relabelled(cols, row, g), g(c)) == Get(row, c)
  {
    var last := cols[|cols| - 1];
    if g(last) != g(c) {
      var init := cols[..|cols| - 1];
      assert cols == init + [last];
      assert c in init;
      RelabelledGet(init, row, g, c);
    }
  }

  /** A name no label is sent to reads as NaN. */
  lemma RelabelledAbsent(cols: seq<string>, row: Row, g: string -> string, n: string)
    requires forall d :: d in cols ==> g(d) != n
    ensures Get(Relabelled(cols, row, g), n) == Missing
  {
  }

  /** `g` sends `c`, and no other label of `cols`, to `g(c)`. */
  predicate Alone(cols: seq<string>, g: string -> string, c: string)
  {
    c in cols && forall d :: d in cols && g(d) == g(c) ==> d == c
  }

  /** `df.columns = df.columns.map(g)`: every label renamed through `g`, the cells kept. */
  function Relabel(f: Frame, g: string -> string): (r: Frame)
    ensures |r.columns| == |f.columns| && forall i :: 0 <= i < |f.columns| ==> r.columns[i] == g(f.columns[i])
    ensures |r.rows| == |f.rows|
    ensures forall k, c :: 0 <= k < |f.rows| && Alone(f.columns, g, c) ==> Get(r.rows[k], g(c)) == Get(f.rows[k], c)
  {
    var r := Frame(seq(|f.columns|, i requires 0 <= i < |f.columns| => g(f.columns[i])),
                   seq(|f.rows|, k requires 0 <= k < |f.rows| => Relabelled(f.columns, f.rows[k], g)));
    assert forall k, c :: 0 <= k < |f.rows| && Alone(f.columns, g, c) ==> Get(r.rows[k], g(c)) == Get(f.rows[k], c) by {
      forall k, c | 0 <= k < |f.rows| && Alone(f.columns, g, c) ensures Get(r.rows[k], g(c)) == Get(f.rows[k], c) {
        RelabelledGet(f.columns, f.rows[k], g, c);
      }
    }
    r
  }

  /** `rename({from: to}, axis=1)`: a label that is absent leaves the frame as it is. */
  function Rename(f: Frame, from: string, to: string): (r: Frame)
    ensures |r.columns| == |f.columns| && forall i :: 0 <= i < |f.columns| ==> r.columns[i] == if f.columns[i] == from then to else f.columns[i]
    ensures |r.rows| == |f.rows|
    ensures from in f.columns && to !in f.columns ==> forall k :: 0 <= k < |f.rows| ==> Get(r.rows[k], to) == Get(f.rows[k], from)
    ensures forall k, c :: 0 <= k < |f.rows| && c in f.columns && c != from && c != to ==> Get(r.rows[k], c) == Get(f.rows[k], c)
  {
    var g := (c: string) => if c == from then to else c;
    var r := Relabel(f, g);
    assert from in f.columns && to !in f.columns ==> Alone(f.columns, g, from);
    assert forall c :: c in f.columns && c != from && c != to ==> Alone(f.columns, g, c);
    r
  }

  /**
   * `df.columns = names`: the labels replaced position by position;
   * pandas raises unless there are as many names as columns.
   */
  function SetColumns(f: Frame, names: seq<string>): (r: Result<Frame, string>)
    ensures r.Failure? <==> |names| != |f.columns|
    ensures r.Success? ==> r.value.columns == names && |r.value.rows| == |f.rows|
    ensures r.Success? ==> forall k, i :: 0 <= k < |f.rows| && 0 <= i < |names| && Unique(names, i) ==> Get(r.value.rows[k], names[i]) == Get(f.rows[k], f.columns[i])
  {
    if |names| != |f.columns| then Failure("ValueError: Length mismatch")
    else
      var rows := seq(|f.rows|, k requires 0 <= k < |f.rows| => Positional(f.columns, names, f.rows[k]));
      assert forall k, i :: 0 <= k < |f.rows| && 0 <= i < |names| && Unique(names, i) ==> Get(rows[k], names[i]) == Get(f.rows[k], f.columns[i]) by {
        forall k, i | 0 <= k < |f.rows| && 0 <= i < |names| && Unique(names, i) ensures Get(rows[k], names[i]) == Get(f.rows[k], f.columns[i]) {
          PositionalGet(f.columns, names, f.rows[k], i);
        }
      }
      Success(Frame(names, rows))
  }

  /** No other position of `names` holds `names[i]`. */
  predicate Unique(names: seq<string>, i: int)
    requires 0 <= i < |names|
  {
    forall j :: 0 <= j < |names| && names[j] == names[i] ==> j == i
  }

  function Positional(cols: seq<string>, names: seq<string>, row: Row): Row
    requires |cols| == |names|
  {
    if cols == [] then map[]
    else Positional(cols[..|cols| - 1], names[..|names| - 1], row)[names[|names| - 1] := Get(row, cols[|cols| - 1])]
  }

  lemma {:induction false} PositionalGet(cols: seq<string>, names: seq<string>, row: Row, i: int)
    requires |cols| == |names| && 0 <= i < |names| && Unique(names, i)
    ensures Get(Positional(cols, names, row), names[i]) == Get(row, cols[i])
  {
    var n := |names| - 1;
    if i < n {
      assert names[n] != names[i];
      var init := names[..n];
      assert Unique(init, i) by {
        forall j | 0 <= j < |init| && init[j] == init[i] ensures j == i {
          assert names[j] == names[i];
        }
      }
      PositionalGet(cols[..n], init, row, i);
    }
  }

  // ---------------------------------------------------------------------
  // Columns added, removed and chosen

  /**
   * `insert(loc, c, v)`: a column of `v` at position `loc`; pandas raises
   * when `c` is already a column or `loc` is out of range.
   */
  function Insert(f: Frame, loc: int, c: string, v: Cell): (r: Result<Frame, string>)
    ensures r.Failure? <==> c in f.columns || loc < 0 || loc > |f.columns|
    ensures r.Success? ==> r.value.columns == f.columns[..loc] + [c] + f.columns[loc..] && |r.value.rows| == |f.rows|
    ensures r.Success? ==> forall k :: 0 <= k < |f.rows| ==> Get(r.value.rows[k], c) == v
    ensures r.Success? ==> forall k, d :: 0 <= k < |f.rows| && d != c ==> Get(r.value.rows[k], d) == Get(f.rows[k], d)
  {
    if c in f.columns then Failure("ValueError: cannot insert " + c + ", already exists")
    else if loc < 0 || loc > |f.columns| then Failure("IndexError: index out of bounds")
    else Success(Frame(f.columns[..loc] + [c] + f.columns[loc..], seq(|f.rows|, k requires 0 <= k < |f.rows| => f.rows[k][c := v])))
  }

  /** `cols` without any `c`, in order. */
  function Remove(cols: seq<string>, c: string): (r: seq<string>)
    ensures forall d :: d in r <==> d in cols && d != c
    ensures |r| <= |cols|
  {
    if cols == [] then []
    else (if cols[0] == c then [] else [cols[0]]) + Remove(cols[1..], c)
  }

  /** `drop(columns=c)`: pandas raises KeyError when there is no such column. */
  function Drop(f: Frame, c: string): (r: Result<Frame, string>)
    ensures r.Failure? <==> c !in f.columns
    ensures r.Success? ==> r.value.columns == Remove(f.columns, c) && |r.value.rows| == |f.rows|
    ensures r.Success? ==> forall k, d :: 0 <= k < |f.rows| ==> Get(r.value.rows[k], d) == if d == c then Missing else Get(f.rows[k], d)
  {
    if c !in f.columns then Failure("KeyError: " + c)
    else Success(Frame(Remove(f.columns, c), seq(|f.rows|, k requires 0 <= k < |f.rows| => f.rows[k] - {c})))
  }

  /** `df[cols]`: exactly these columns in this order; pandas raises KeyError on a missing one. */
  function Select(f: Frame, cols: seq<string>): (r: Result<Frame, string>)
    ensures r.Failure? <==> exists i :: 0 <= i < |cols| && cols[i] !in f.columns
    ensures r.Success? ==> r.value.columns == cols && |r.value.rows| == |f.rows|
    ensures r.Success? ==> forall k, c :: 0 <= k < |f.rows| ==> Get(r.value.rows[k], c) == if c in cols then Get(f.rows[k], c) else Missing
  {
    if exists i :: 0 <= i < |cols| && cols[i] !in f.columns then Failure("KeyError")
    else Success(Frame(cols, seq(|f.rows|, k requires 0 <= k < |f.rows| => Project(f.rows[k], cols))))
  }

  /** The labels of `b` that `a` lacks, in order. */
  function Extra(a: seq<string>, b: seq<string>): (r: seq<string>)
    ensures forall d :: d in r <==> d in b && d !in a
  {
    if b == [] then []
    else (if b[0] in a then [] else [b[0]]) + Extra(a, b[1..])
  }

  /**
   * `pd.concat([a, b], axis=0)`: the rows of `a` then those of `b`, over
   * the union of their columns; a cell a frame lacks is NaN.
   */
  function Concat(a: Frame, b: Frame): (r: Frame)
    ensures r.columns == a.columns + Extra(a.columns, b.columns)
    ensures |r.rows| == |a.rows| + |b.rows|
    ensures forall k, c :: 0 <= k < |a.rows| ==> Get(r.rows[k], c) == if c in r.columns then Get(a.rows[k], c) else Missing
    ensures forall k, c :: |a.rows| <= k < |r.rows| ==> Get(r.rows[k], c) == if c in r.columns then Get(b.rows[k - |a.rows|], c) else Missing
  {
    var cols := a.columns + Extra(a.columns, b.columns);
    var rows := seq(|a.rows| + |b.rows|, k requires 0 <= k < |a.rows| + |b.rows| =>
      Project(if k < |a.rows| then a.rows[k] else b.rows[k - |a.rows|], cols));
    assert forall k, c :: |a.rows| <= k < |rows| ==> Get(rows[k], c) == if c in cols then Get(b.rows[k - |a.rows|], c) else Missing by {
      forall k, c | |a.rows| <= k < |rows| ensures Get(rows[k], c) == if c in cols then Get(b.rows[k - |a.rows|], c) else Missing {
        assert rows[k] == Project(b.rows[k - |a.rows|], cols);
      }
    }
    Frame(cols, rows)
  }

  // ---------------------------------------------------------------------
  // Cells rewritten

  /** `replace(...)` over the whole frame: every cell passes through `sub`. */
  function ReplaceCells(f: Frame, sub: Cell -> Cell): (r: Frame)
    ensures r.columns == f.columns && |r.rows| == |f.rows|
    ensures forall k, c :: 0 <= k < |f.rows| && c in f.columns ==> Get(r.rows[k], c) == sub(Get(f.rows[k], c))
  {
    Frame(f.columns, seq(|f.rows|, k requires 0 <= k < |f.rows| => map c | c in f.columns :: sub(Get(f.rows[k], c))))
  }

  /** `h` applied to each cell in turn, stopping at the first that fails. */
  function MapCells(cells: seq<Cell>, h: Cell -> Result<Cell, string>): (r: Result<seq<Cell>, string>)
    ensures r.Failure? <==> exists k :: 0 <= k < |cells| && h(cells[k]).Failure?
    ensures r.Success? ==> |r.value| == |cells| && forall k :: 0 <= k < |cells| ==> Success(r.value[k]) == h(cells[k])
  {
    if cells == [] then Success([])
    else
      var first :- h(cells[0]);
      var rest :- MapCells(cells[1..], h);
      assert forall k :: 1 <= k < |cells| ==> cells[k] == cells[1..][k - 1];
      Success([first] + rest)
  }

  /**
   * `df[c] = df[c].apply(h)`: one column rewritten cell by cell; the access
   * raises when there is no such column, and the assignment fails when
   * `h` fails on any cell.
   */
  function MapColumn(f: Frame, c: string, h: Cell -> Result<Cell, string>): (r: Result<Frame, string>)
    ensures r.Failure? <==> c !in f.columns || exists k :: 0 <= k < |f.rows| && h(Get(f.rows[k], c)).Failure?
    ensures r.Success? ==> r.value.columns == f.columns && |r.value.rows| == |f.rows|
    ensures r.Success? ==> forall k :: 0 <= k < |f.rows| ==> Success(Get(r.value.rows[k], c)) == h(Get(f.rows[k], c))
    ensures r.Success? ==> forall k, d :: 0 <= k < |f.rows| && d != c ==> Get(r.value.rows[k], d) == Get(f.rows[k], d)
  {
    if c !in f.columns then Failure("AttributeError: " + c)
    else
      var cells := seq(|f.rows|, k requires 0 <= k < |f.rows| => Get(f.rows[k], c));
      assert forall k :: 0 <= k < |f.rows| ==> cells[k] == Get(f.rows[k], c);
      var out :- MapCells(cells, h);
      Success(Frame(f.columns, seq(|f.rows|, k requires 0 <= k < |f.rows| => f.rows[k][c := out[k]])))
  }

  // ---------------------------------------------------------------------
  // Rows filtered

  /** The rows whose cell under `c` is not `v`, in order: `df[df[c] != v]`. */
  function Without(rows: seq<Row>, c: string, v: Cell): (r: seq<Row>)
    ensures |r| <= |rows|
    ensures forall x :: x in r <==> x in rows && Get(x, c) != v
  {
    if rows == [] then []
    else (if Get(rows[0], c) == v then [] else [rows[0]]) + Without(rows[1..], c, v)
  }

  /** How many rows hold `v` under `c`. */
  function Count(rows: seq<Row>, c: string, v: Cell): nat
  {
    if rows == [] then 0 else (if Get(rows[0], c) == v then 1 else 0) + Count(rows[1..], c, v)
  }

  lemma {:induction false} WithoutCount(rows: seq<Row>, c: string, v: Cell)
    ensures |Without(rows, c, v)| == |rows| - Count(rows, c, v)
  {
    if rows != [] {
      WithoutCount(rows[1..], c, v);
    }
  }

  /** Filtering keeps the surviving rows in their order. */
  lemma {:induction false} WithoutAppend(a: seq<Row>, b: seq<Row>, c: string, v: Cell)
    ensures Without(a + b, c, v) == Without(a, c, v) + Without(b, c, v)
  {
    if a == [] {
      assert a + b == b;
    } else {
      var head := if Get(a[0], c) == v then [] else [a[0]];
      assert (a + b)[0] == a[0] && (a + b)[1..] == a[1..] + b;
      assert Without(a + b, c, v) == head + Without(a[1..] + b, c, v);
      WithoutAppend(a[1..], b, c, v);
      assert Without(a, c, v) == head + Without(a[1..], c, v);
      AppendAssoc(head, Without(a[1..], c, v), Without(b, c, v));
    }
  }

  lemma AppendAssoc(x: seq<Row>, y: seq<Row>, z: seq<Row>)
    ensures x + (y + z) == x + y + z
  {
  }

  /** The boolean row filter of pandas on one column. */
  function Where(f: Frame, c: string, v: Cell): (r: Frame)
    ensures r.columns == f.columns && r.rows == Without(f.rows, c, v)
  {
    Frame(f.columns, Without(f.rows, c, v))
  }

  // ---------------------------------------------------------------------
  // Merging

  datatype How = Inner | LeftJoin

  /** The two rows hold equal cells under every key; NaN keys match each other, as in pandas. */
  predicate Agree(l: Row, r: Row, on: seq<string>)
  {
    forall i :: 0 <= i < |on| ==> Get(l, on[i]) == Get(r, on[i])
  }

  /** A non-key label both sides share gets the side's suffix (`_x` on the left, `_y` on the right). */
  function Suffixed(c: string, on: seq<string>, other: seq<string>, suffix: string): string
  {
    if c !in on && c in other then c + suffix else c
  }

  /** The right-hand labels that are not keys. */
  function Payload(right: seq<string>, on: seq<string>): (r: seq<string>)
    ensures forall d :: d in r <==> d in right && d !in on
  {
    if right == [] then []
    else (if right[0] in on then [] else [right[0]]) + Payload(right[1..], on)
  }

  /** The labels of a merge: the left ones, then the right non-key ones, each suffixed where shared. */
  function MergedColumns(left: seq<string>, right: seq<string>, on: seq<string>): (r: seq<string>)
    ensures |r| == |left| + |Payload(right, on)|
  {
    seq(|left|, i requires 0 <= i < |left| => Suffixed(left[i], on, right, "_x"))
      + seq(|Payload(right, on)|, i requires 0 <= i < |Payload(right, on)| => Suffixed(Payload(right, on)[i], on, left, "_y"))
  }

  /** The right row's non-key cells, then the left row's cells, then the left row's keys. */
  function Combine(left: seq<string>, right: seq<string>, on: seq<string>, l: Row, r: Row): Row
  {
    Relabelled(Payload(right, on), r, c => Suffixed(c, on, left, "_y"))
      + Relabelled(left, l, c => Suffixed(c, on, right, "_x"))
      + Relabelled(on, l, c => c)
  }

  /** The right rows that agree with `l` on the keys, in order. */
  function Matches(l: Row, rights: seq<Row>, on: seq<string>): (r: seq<Row>)
    ensures forall x :: x in r <==> x in rights && Agree(l, x, on)
  {
    if rights == [] then []
    else (if Agree(l, rights[0], on) then [rights[0]] else []) + Matches(l, rights[1..], on)
  }

  /** `l` joined with each of `ms` in turn. */
  function JoinAll(left: seq<string>, right: seq<string>, on: seq<string>, l: Row, ms: seq<Row>): (r: seq<Row>)
    ensures forall x :: x in r <==> exists m :: m in ms && x == Combine(left, right, on, l, m)
  {
    if ms == [] then []
    else [Combine(left, right, on, l, ms[0])] + JoinAll(left, right, on, l, ms[1..])
  }

  /** The rows one left row contributes. */
  function Contribution(left: seq<string>, right: seq<string>, on: seq<string>, how: How, l: Row, rights: seq<Row>): seq<Row>
  {
    var ms := Matches(l, rights, on);
    if ms == [] then (if how == LeftJoin then [Combine(left, right, on, l, map[])] else [])
    else JoinAll(left, right, on, l, ms)
  }

  function MergeRows(left: seq<string>, right: seq<string>, on: seq<string>, how: How, ls: seq<Row>, rights: seq<Row>): seq<Row>
  {
    if ls == [] then []
    else Contribution(left, right, on, how, ls[0], rights) + MergeRows(left, right, on, how, ls[1..], rights)
  }

  /**
   * `left.merge(right, on=on, how=how)`: every left row, in order, joined
   * with each right row that agrees with it on the keys; under a left join
   * a left row with no partner is kept once with NaN on the right. pandas
   * raises KeyError when a key is missing from either side.
   */
  function Merge(left: Frame, right: Frame, on: seq<string>, how: How): (r: Result<Frame, string>)
    ensures r.Failure? <==> exists i :: 0 <= i < |on| && (on[i] !in left.columns || on[i] !in right.columns)
    ensures r.Success? ==> r.value.columns == MergedColumns(left.columns, right.columns, on)
    ensures r.Success? ==> r.value.rows == MergeRows(left.columns, right.columns, on, how, left.rows, right.rows)
  {
    if exists i :: 0 <= i < |on| && (on[i] !in left.columns || on[i] !in right.columns) then Failure("KeyError")
    else Success(Frame(MergedColumns(left.columns, right.columns, on), MergeRows(left.columns, right.columns, on, how, left.rows, right.rows)))
  }

  /** The row an inner merge makes of left row `i` and right row `j`. */
  predicate Joins(left: Frame, right: Frame, on: seq<string>, x: Row, i: int, j: int)
  {
    0 <= i < |left.rows| && 0 <= j < |right.rows| && Agree(left.rows[i], right.rows[j], on)
    && x == Combine(left.columns, right.columns, on, left.rows[i], right.rows[j])
  }

  /** A left row no right row agrees with. */
  predicate Unmatched(right: seq<Row>, on: seq<string>, l: Row)
  {
    forall j :: 0 <= j < |right| ==> !Agree(l, right[j], on)
  }

  /** A left row with partners contributes exactly its joins with them. */
  lemma ContributionMatched(left: seq<string>, right: seq<string>, on: seq<string>, how: How, l: Row, rights: seq<Row>, x: Row)
    requires Matches(l, rights, on) != []
    ensures !Unmatched(rights, on, l)
    ensures x in Contribution(left, right, on, how, l, rights) <==>
      exists j :: 0 <= j < |rights| && Agree(l, rights[j], on) && x == Combine(left, right, on, l, rights[j])
  {
    var ms := Matches(l, rights, on);
    assert ms[0] in rights;
    if x in Contribution(left, right, on, how, l, rights) {
      var m :| m in ms && x == Combine(left, right, on, l, m);
      var j :| 0 <= j < |rights| && rights[j] == m;
    }
  }

  lemma ContributionMembers(left: seq<string>, right: seq<string>, on: seq<string>, how: How, l: Row, rights: seq<Row>, x: Row)
    ensures x in Contribution(left, right, on, how, l, rights) <==>
      (exists j :: 0 <= j < |rights| && Agree(l, rights[j], on) && x == Combine(left, right, on, l, rights[j]))
      || (how == LeftJoin && Unmatched(rights, on, l) && x == Combine(left, right, on, l, map[]))
  {
    if Matches(l, rights, on) == [] {
      assert Unmatched(rights, on, l) by {
        forall j | 0 <= j < |rights| ensures !Agree(l, rights[j], on) {
          assert rights[j] in rights;
        }
      }
    } else {
      ContributionMatched(left, right, on, how, l, rights, x);
    }
  }

  lemma {:induction false} MergeRowsMembers(left: seq<string>, right: seq<string>, on: seq<string>, how: How, ls: seq<Row>, rights: seq<Row>, x: Row)
    ensures x in MergeRows(left, right, on, how, ls, rights) <==>
      exists i :: 0 <= i < |ls| && x in Contribution(left, right, on, how, ls[i], rights)
  {
    if ls != [] {
      MergeRowsMembers(left, right, on, how, ls[1..], rights, x);
      if exists i :: 0 <= i < |ls| && x in Contribution(left, right, on, how, ls[i], rights) {
        var i :| 0 <= i < |ls| && x in Contribution(left, right, on, how, ls[i], rights);
        if i > 0 {
          assert ls[1..][i - 1] == ls[i];
        }
      }
      if exists i :: 0 <= i < |ls[1..]| && x in Contribution(left, right, on, how, ls[1..][i], rights) {
        var i :| 0 <= i < |ls[1..]| && x in Contribution(left, right, on, how, ls[1..][i], rights);
        assert ls[1..][i] == ls[i + 1];
      }
    }
  }

  /** An inner merge holds exactly the joined pairs of rows that agree on the keys. */
  lemma InnerMergeMembers(left: Frame, right: Frame, on: seq<string>, x: Row)
    ensures x in MergeRows(left.columns, right.columns, on, Inner, left.rows, right.rows) <==>
      exists i, j :: Joins(left, right, on, x, i, j)
  {
    MergeRowsMembers(left.columns, right.columns, on, Inner, left.rows, right.rows, x);
    if exists i, j :: Joins(left, right, on, x, i, j) {
      var i, j :| Joins(left, right, on, x, i, j);
      ContributionMembers(left.columns, right.columns, on, Inner, left.rows[i], right.rows, x);
    }
    if x in MergeRows(left.columns, right.columns, on, Inner, left.rows, right.rows) {
      var i :| 0 <= i < |left.rows| && x in Contribution(left.columns, right.columns, on, Inner, left.rows[i], right.rows);
      ContributionMembers(left.columns, right.columns, on, Inner, left.rows[i], right.rows, x);
      var j :| 0 <= j < |right.rows| && Agree(left.rows[i], right.rows[j], on) && x == Combine(left.columns, right.columns, on, left.rows[i], right.rows[j]);
      assert Joins(left, right, on, x, i, j);
    }
  }

  /** A left merge holds the joined pairs, and each left row without a partner once, padded with NaN. */
  lemma LeftMergeMembers(left: Frame, right: Frame, on: seq<string>, x: Row)
    ensures x in MergeRows(left.columns, right.columns, on, LeftJoin, left.rows, right.rows) <==>
      (exists i, j :: Joins(left, right, on, x, i, j))
      || (exists i :: 0 <= i < |left.rows| && Unmatched(right.rows, on, left.rows[i]) && x == Combine(left.columns, right.columns, on, left.rows[i], map[]))
  {
    MergeRowsMembers(left.columns, right.columns, on, LeftJoin, left.rows, right.rows, x);
    if exists i, j :: Joins(left, right, on, x, i, j) {
      var i, j :| Joins(left, right, on, x, i, j);
      ContributionMembers(left.columns, right.columns, on, LeftJoin, left.rows[i], right.rows, x);
    }
    if exists i :: 0 <= i < |left.rows| && Unmatched(right.rows, on, left.rows[i]) && x == Combine(left.columns, right.columns, on, left.rows[i], map[]) {
      var i :| 0 <= i < |left.rows| && Unmatched(right.rows, on, left.rows[i]) && x == Combine(left.columns, right.columns, on, left.rows[i], map[]);
      ContributionMembers(left.columns, right.columns, on, LeftJoin, left.rows[i], right.rows, x);
    }
    if x in MergeRows(left.columns, right.columns, on, LeftJoin, left.rows, right.rows) {
      var i :| 0 <= i < |left.rows| && x in Contribution(left.columns, right.columns, on, LeftJoin, left.rows[i], right.rows);
      ContributionMembers(left.columns, right.columns, on, LeftJoin, left.rows[i], right.rows, x);
      if !Unmatched(right.rows, on, left.rows[i]) || x != Combine(left.columns, right.columns, on, left.rows[i], map[]) {
        var j :| 0 <= j < |right.rows| && Agree(left.rows[i], right.rows[j], on) && x == Combine(left.columns, right.columns, on, left.rows[i], right.rows[j]);
        assert Joins(left, right, on, x, i, j);
      }
    }
  }

  /** A left merge keeps every left row: no left row is lost. */
  lemma {:induction false} LeftMergeKeeps(left: seq<string>, right: seq<string>, on: seq<string>, ls: seq<Row>, rights: seq<Row>)
    ensures |MergeRows(left, right, on, LeftJoin, ls, rights)| >= |ls|
  {
    if ls != [] {
      LeftMergeKeeps(left, right, on, ls[1..], rights);
    }
  }

  /** The key cells of a merged row are the left row's. */
  lemma CombineKey(left: seq<string>, right: seq<string>, on: seq<string>, l: Row, r: Row, c: string)
    requires c in on
    ensures Get(Combine(left, right, on, l, r), c) == Get(l, c)
  {
    RelabelledGet(on, l, c => c, c);
  }

  /**
   * A left label the right side does not share, and that no other left
   * label turns into by suffixing, carries the left row's cell.
   */
  lemma CombineLeft(left: seq<string>, right: seq<string>, on: seq<string>, l: Row, r: Row, c: string)
    requires c in left && c !in on && c !in right
    requires forall d :: d in left && d + "_x" == c ==> d !in right || d in on
    ensures Get(Combine(left, right, on, l, r), c) == Get(l, c)
  {
    var g := (d: string) => Suffixed(d, on, right, "_x");
    assert Alone(left, g, c);
    RelabelledGet(left, l, g, c);
    var keys := Relabelled(on, l, d => d);
    assert c !in keys;
  }

  /**
   * A right label the left side does not have, and that no left label
   * turns into, carries the right row's cell.
   */
  lemma CombineRight(left: seq<string>, right: seq<string>, on: seq<string>, l: Row, r: Row, c: string)
    requires c in right && c !in on && c !in left
    requires forall d :: d in left ==> Suffixed(d, on, right, "_x") != c
    requires forall d :: d in right && d in left ==> d + "_y" != c
    ensures Get(Combine(left, right, on, l, r), c) == Get(r, c)
  {
    var g := (d: string) => Suffixed(d, on, left, "_y");
    var p := Payload(right, on);
    assert Alone(p, g, c);
    RelabelledGet(p, r, g, c);
    var lefts := Relabelled(left, l, d => Suffixed(d, on, right, "_x"));
    assert c !in lefts;
    var keys := Relabelled(on, l, d => d);
    assert c !in keys;
  }

  // ---------------------------------------------------------------------
  // Types enforced

  /** The three column types of the output schema. */
  datatype Kind = Str | Bool | Float

  /**
   * `astype(kinds)`: every listed column converted cell by cell; pandas
   * raises KeyError for a listed column the frame lacks, and the
   * conversion fails as soon as one cell does not convert.
   */
  function AsType(f: Frame, kinds: map<string, Kind>, convert: (Kind, Cell) -> Result<Cell, string>): (r: Result<Frame, string>)
    ensures r.Failure? <==> ((exists c :: c in kinds && c !in f.columns)
      || exists k, c :: 0 <= k < |f.rows| && c in f.columns && c in kinds && convert(kinds[c], Get(f.rows[k], c)).Failure?)
    ensures r.Success? ==> r.value.columns == f.columns && |r.value.rows| == |f.rows|
    ensures r.Success? ==> forall k, c :: 0 <= k < |f.rows| && c in f.columns ==>
      Success(Get(r.value.rows[k], c)) == if c in kinds then convert(kinds[c], Get(f.rows[k], c)) else Success(Get(f.rows[k], c))
  {
    if exists c :: c in kinds && c !in f.columns then Failure("KeyError: Only a column name can be used for the key in a dtype mappings argument.")
    else if Unconvertible(f, kinds, convert) then Failure("ValueError")
    else Success(Converted(f, kinds, convert))
  }

  /** Some listed cell of the frame does not convert. */
  predicate Unconvertible(f: Frame, kinds: map<string, Kind>, convert: (Kind, Cell) -> Result<Cell, string>)
    ensures !Unconvertible(f, kinds, convert) ==>
      forall k, c :: 0 <= k < |f.rows| && c in f.columns && c in kinds ==> convert(kinds[c], Get(f.rows[k], c)).Success?
  {
    exists k, c :: 0 <= k < |f.rows| && c in f.columns && c in kinds && convert(kinds[c], Get(f.rows[k], c)).Failure?
  }

  /** The frame `astype` returns once every listed cell converts. */
  function Converted(f: Frame, kinds: map<string, Kind>, convert: (Kind, Cell) -> Result<Cell, string>): (r: Frame)
    requires forall k, c :: 0 <= k < |f.rows| && c in f.columns && c in kinds ==> convert(kinds[c], Get(f.rows[k], c)).Success?
    ensures r.columns == f.columns && |r.rows| == |f.rows|
    ensures forall k, c :: 0 <= k < |f.rows| && c in f.columns ==>
      Success(Get(r.rows[k], c)) == if c in kinds then convert(kinds[c], Get(f.rows[k], c)) else Success(Get(f.rows[k], c))
  {
    Frame(f.columns, seq(|f.rows|, k requires 0 <= k < |f.rows| =>
      map c | c in f.columns :: if c in kinds then convert(kinds[c], Get(f.rows[k], c)).value else Get(f.rows[k], c)))
  }
}
