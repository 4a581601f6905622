/**
 * The wide-to-long spreadsheet normalisers of `src/data_utils.py`:
 * `load_census_stc`, `load_census_state_finances` and
 * `load_asfin_state_finances`.
 *
 * A sheet arrives as the grid `pd.read_excel(path, header=None)` produces.
 * The loaders find the header row, take the first column as the category
 * and every other column as one region, melt the grid to one row per
 * (column, category row), coerce amounts to numbers, and keep only the
 * columns whose header is a state name.
 */
module Sheets {
  import opened Wrappers
  import opened Text
  import opened Numeric
  import opened Lists
  import StateNames

  /** One spreadsheet cell as pandas reads it. */
  datatype Cell = Str(text: string) | Num(value: real) | Missing

  type Row = seq<Cell>
  type Grid = seq<Row>

  /** Which loader raised, so that each keeps its own error message. */
  datatype SheetKind = Stc | StateFinances | Asfin

  datatype SheetError =
    | HeaderNotFound(sheet: SheetKind)
    | FunctionSectionNotFound

  /** One output row: `state`, `state_name`, `category`, `amount` (thousands of dollars). */
  datatype FinanceRow = FinanceRow(state: string, stateName: string, category: Cell, amount: Option<real>)

  /** A cell past the end of a row is empty, as pandas pads short rows. */
  function CellAt(row: Row, j: nat): Cell {
    if j < |row| then row[j] else Missing
  }

  /**
   * `marker in str(cell).lower()`. Every marker used here is lower-case words
   * and spaces, which neither a number's text nor "nan" contains, so only a
   * text cell can mention one.
   */
  predicate Mentions(c: Cell, marker: string) {
    c.Str? && Contains(Lower(c.text), marker)
  }

  const Anchor: string := "united states"

  /** `row.astype(str).str.contains("United States", case=False).any()` */
  predicate IsAnchorRow(row: Row) {
    exists j :: 0 <= j < |row| && Mentions(row[j], Anchor)
  }

  /** `h` is the first row that mentions the anchor. */
  ghost predicate IsHeaderRow(g: Grid, h: nat) {
    h < |g| && IsAnchorRow(g[h]) && forall k :: 0 <= k < h ==> !IsAnchorRow(g[k])
  }

  lemma HeaderRowUnique(g: Grid, h1: nat, h2: nat)
    requires IsHeaderRow(g, h1) && IsHeaderRow(g, h2)
    ensures h1 == h2
  {
  }

  /** The header scan: the first row with any cell mentioning "united states", case-insensitively. */
  method FindHeaderRow(g: Grid, kind: SheetKind) returns (r: Result<nat, SheetError>)
    ensures r.Success? ==> IsHeaderRow(g, r.value)
    ensures r.Failure? <==> forall i :: 0 <= i < |g| ==> !IsAnchorRow(g[i])
    ensures r.Failure? ==> r.error == HeaderNotFound(kind)
  {
    var header: Option<nat> := None;
    var i := 0;
    while i < |g|
      invariant 0 <= i <= |g|
      invariant header.None?
      invariant forall k :: 0 <= k < i ==> !IsAnchorRow(g[k])
    {
      if IsAnchorRow(g[i]) {
        header := Some(i);
        break;
      }
      i := i + 1;
    }
    if header.None? {
      return Failure(HeaderNotFound(kind));
    }
    return Success(header.value);
  }

  // ---------------------------------------------------------------------
  // Columns
  // ---------------------------------------------------------------------

  /**
   * The label pandas gives column `j` when reading with this header row, as far
   * as it matters for the state lookup: a text header names its column, unless
   * an earlier column carries the same text (pandas renames the repeat "X.1",
   * which no state is called). Numeric and empty headers name no state.
   */
  function Label(header: Row, j: nat): Option<string> {
    if j < |header| && header[j].Str? && (forall k :: 0 <= k < j ==> header[k] != header[j])
    then Some(header[j].text)
    else None
  }

  /** The abbreviation `long["state_name"].map(_state_name_to_abbr())` gives column `j`. */
  function ColumnState(header: Row, j: nat): Option<string> {
    match Label(header, j)
    case Some(n) => StateNames.NameToAbbr(n)
    case None => None
  }

  /** Two different columns never map to the same state: a region appears once per category. */
  lemma ColumnStatesDistinct(header: Row, j1: nat, j2: nat)
    requires j1 < j2
    requires ColumnState(header, j1).Some? && ColumnState(header, j2).Some?
    ensures ColumnState(header, j1) != ColumnState(header, j2)
  {
    var n1, n2 := Label(header, j1).value, Label(header, j2).value;
    assert header[j1] != header[j2];
    StateNames.NameToAbbrInjective(n1, n2);
  }

  // ---------------------------------------------------------------------
  // Melt, coerce, map, drop
  // ---------------------------------------------------------------------

  /** `pd.to_numeric(cell, errors="coerce")`: a number, or missing when the cell is not numeric. */
  function ToNumeric(c: Cell): Option<real> {
    match c
    case Num(x) => Some(x)
    case Str(s) => ParseDecimal(s)
    case Missing => None
  }

  /** One row of the melted frame before the state filter. */
  datatype Melted = Melted(category: Cell, column: Option<string>, amount: Option<real>)

  function MeltedAt(rows: seq<Row>, header: Row, i: nat, j: nat): Melted
    requires i < |rows|
  {
    Melted(CellAt(rows[i], 0), Label(header, j), ToNumeric(CellAt(rows[i], j)))
  }

  function MeltColumn(rows: seq<Row>, header: Row, j: nat): (ms: seq<Melted>)
    ensures |ms| == |rows|
    ensures forall i :: 0 <= i < |rows| ==> ms[i] == MeltedAt(rows, header, i, j)
  {
    seq(|rows|, i requires 0 <= i < |rows| => MeltedAt(rows, header, i, j))
  }

  /** `df.melt(id_vars=["category"], ...)` over columns `j..`: column by column, each column's rows in order. */
  function Melt(rows: seq<Row>, header: Row, j: nat): seq<Melted>
    decreases |header| - j
  {
    if j >= |header| then [] else MeltColumn(rows, header, j) + Melt(rows, header, j + 1)
  }

  /** Melting from column `j` on yields exactly the (category row, value column) pairs from `j` on. */
  lemma {:induction false} MeltMembership(rows: seq<Row>, header: Row, j: nat, m: Melted)
    ensures m in Melt(rows, header, j) <==>
      exists i, c :: 0 <= i < |rows| && j <= c < |header| && m == MeltedAt(rows, header, i, c)
    decreases |header| - j
  {
    if j < |header| {
      MeltMembership(rows, header, j + 1, m);
      var col, rest := MeltColumn(rows, header, j), Melt(rows, header, j + 1);
      assert Melt(rows, header, j) == col + rest;
      if m in col {
        var i :| 0 <= i < |rows| && col[i] == m;
        assert m == MeltedAt(rows, header, i, j);
      }
      if exists i, c :: 0 <= i < |rows| && j <= c < |header| && m == MeltedAt(rows, header, i, c) {
        var i, c :| 0 <= i < |rows| && j <= c < |header| && m == MeltedAt(rows, header, i, c);
        if c == j {
          assert col[i] == m;
        } else {
          assert m in rest;
        }
      }
    }
  }

  /** Where block `d` starts in a run of blocks of `n` entries each. */
  function BlockStart(n: nat, d: nat): nat {
    if d == 0 then 0 else n + BlockStart(n, d - 1)
  }

  lemma {:induction false} BlockStartIsProduct(n: nat, d: nat)
    ensures BlockStart(n, d) == d * n
  {
    if d > 0 {
      BlockStartIsProduct(n, d - 1);
      assert d * n == n + (d - 1) * n;
    }
  }

  /** The position of category row `i` and column `c` in a melt from column `j` over `n` rows: `(c - j) * n + i`. */
  function MeltPosition(n: nat, j: nat, i: nat, c: nat): (p: nat)
    requires j <= c
    ensures p == (c - j) * n + i
  {
    BlockStartIsProduct(n, c - j);
    BlockStart(n, c - j) + i
  }

  /** Melting from column `j` on gives one entry per category row for each remaining column. */
  lemma {:induction false} MeltLength(rows: seq<Row>, header: Row, j: nat)
    ensures j <= |header| ==> |Melt(rows, header, j)| == BlockStart(|rows|, |header| - j)
    ensures j > |header| ==> Melt(rows, header, j) == []
    decreases |header| - j
  {
    if j < |header| {
      MeltLength(rows, header, j + 1);
    }
  }

  /** The entry for category row `i` and column `c` sits at position `i` of block `c - j`. */
  lemma {:induction false} MeltAt(rows: seq<Row>, header: Row, j: nat, i: nat, c: nat)
    requires i < |rows| && j <= c < |header|
    ensures BlockStart(|rows|, c - j) + i < |Melt(rows, header, j)|
    ensures Melt(rows, header, j)[BlockStart(|rows|, c - j) + i] == MeltedAt(rows, header, i, c)
    decreases c - j
  {
    var col, rest := MeltColumn(rows, header, j), Melt(rows, header, j + 1);
    assert Melt(rows, header, j) == col + rest;
    if c > j {
      MeltAt(rows, header, j + 1, i, c);
      assert BlockStart(|rows|, c - j) == |rows| + BlockStart(|rows|, c - (j + 1));
      ConcatIndex(col, rest, BlockStart(|rows|, c - (j + 1)) + i);
    } else {
      assert BlockStart(|rows|, c - j) == 0;
    }
  }

  /**
   * Melting from column `j` on gives exactly one entry per (category row,
   * value column) pair: |rows| entries per column, and column `c`'s entries
   * in row order at block `c - j`.
   */
  lemma MeltLayout(rows: seq<Row>, header: Row, j: nat)
    ensures j <= |header| ==> |Melt(rows, header, j)| == |rows| * (|header| - j)
    ensures forall i: nat, c: nat :: i < |rows| && j <= c < |header| ==>
      MeltPosition(|rows|, j, i, c) < |Melt(rows, header, j)| && Melt(rows, header, j)[MeltPosition(|rows|, j, i, c)] == MeltedAt(rows, header, i, c)
  {
    MeltLength(rows, header, j);
    if j <= |header| {
      BlockStartIsProduct(|rows|, |header| - j);
    }
    forall i: nat, c: nat | i < |rows| && j <= c < |header|
      ensures MeltPosition(|rows|, j, i, c) < |Melt(rows, header, j)| && Melt(rows, header, j)[MeltPosition(|rows|, j, i, c)] == MeltedAt(rows, header, i, c)
    {
      MeltAt(rows, header, j, i, c);
    }
  }

  /** The state mapping of one melted row, `None` when its column is no state. */
  function ToFinanceRow(m: Melted): Option<FinanceRow> {
    match m.column
    case Some(n) =>
      (match StateNames.NameToAbbr(n)
       case Some(a) => Some(FinanceRow(a, n, m.category, m.amount))
       case None => None)
    case None => None
  }

  /** `long["state"] = ...map(...)` then `dropna(subset=["state"])`; order kept. */
  function MapStates(ms: seq<Melted>): seq<FinanceRow> {
    if ms == [] then []
    else
      match ToFinanceRow(ms[0])
      case Some(r) => [r] + MapStates(ms[1..])
      case None => MapStates(ms[1..])
  }

  lemma {:induction false} MapStatesAppend(a: seq<Melted>, b: seq<Melted>)
    ensures MapStates(a + b) == MapStates(a) + MapStates(b)
  {
    if a != [] {
      assert a + b != [] && (a + b)[0] == a[0];
      assert (a + b)[1..] == a[1..] + b;
      MapStatesAppend(a[1..], b);
    } else {
      assert a + b == b;
    }
  }

  lemma {:induction false} MapStatesMembership(ms: seq<Melted>, r: FinanceRow)
    ensures r in MapStates(ms) <==> exists k :: 0 <= k < |ms| && ToFinanceRow(ms[k]) == Some(r)
  {
    if ms != [] {
      MapStatesMembership(ms[1..], r);
      if exists k :: 0 <= k < |ms| && ToFinanceRow(ms[k]) == Some(r) {
        var k :| 0 <= k < |ms| && ToFinanceRow(ms[k]) == Some(r);
        if k > 0 { assert ms[1..][k - 1] == ms[k]; }
      }
      if exists k :: 0 <= k < |ms[1..]| && ToFinanceRow(ms[1..][k]) == Some(r) {
        var k :| 0 <= k < |ms[1..]| && ToFinanceRow(ms[1..][k]) == Some(r);
        assert ms[k + 1] == ms[1..][k];
      }
    }
  }

  /** A column is kept whole or dropped whole, since all its rows share the column's label. */
  lemma {:induction false} MapStatesColumn(ms: seq<Melted>, name: Option<string>)
    requires forall k :: 0 <= k < |ms| ==> ms[k].column == name
    ensures |MapStates(ms)| == if name.Some? && StateNames.NameToAbbr(name.value).Some? then |ms| else 0
  {
    if ms != [] {
      MapStatesColumn(ms[1..], name);
    }
  }

  /** The number of columns from `j` on whose header is a state name. */
  function MappedColumns(header: Row, j: nat): nat
    decreases |header| - j
  {
    if j >= |header| then 0
    else (if ColumnState(header, j).Some? then 1 else 0) + MappedColumns(header, j + 1)
  }

  /** Melt, coerce and map the category rows `rows` under `header`. */
  function MeltRows(rows: seq<Row>, header: Row): seq<FinanceRow> {
    MapStates(Melt(rows, header, 1))
  }

  /** After the state filter: exactly one row per (category row, state column). */
  lemma {:induction false} MeltRowsCount(rows: seq<Row>, header: Row, j: nat)
    requires j >= 1
    ensures |MapStates(Melt(rows, header, j))| == |rows| * MappedColumns(header, j)
    decreases |header| - j
  {
    if j < |header| {
      var column, rest := MeltColumn(rows, header, j), Melt(rows, header, j + 1);
      assert Melt(rows, header, j) == column + rest;
      MapStatesAppend(column, rest);
      MeltColumnCount(rows, header, j);
      MeltRowsCount(rows, header, j + 1);
      CountStep(|rows|, ColumnState(header, j).Some?, MappedColumns(header, j + 1));
    }
  }

  lemma CountStep(n: nat, mapped: bool, m: nat)
    ensures (if mapped then n else 0) + n * m == n * ((if mapped then 1 else 0) + m)
  {
    if mapped {
      assert n * (1 + m) == n + n * m;
    }
  }

  /** One column contributes a row per category row when its header is a state, and nothing otherwise. */
  lemma MeltColumnCount(rows: seq<Row>, header: Row, j: nat)
    ensures |MapStates(MeltColumn(rows, header, j))| == if ColumnState(header, j).Some? then |rows| else 0
  {
    MapStatesColumn(MeltColumn(rows, header, j), Label(header, j));
  }

  /** The row a category row and a state column give. */
  function RowFor(row: Row, header: Row, j: nat): FinanceRow
    requires ColumnState(header, j).Some?
  {
    FinanceRow(ColumnState(header, j).value, Label(header, j).value, CellAt(row, 0), ToNumeric(CellAt(row, j)))
  }

  /**
   * What the normalised table holds: exactly the rows of one category row and
   * one state column, with the amount coerced (missing when not numeric, but
   * kept).
   */
  lemma MeltRowsMembership(rows: seq<Row>, header: Row, r: FinanceRow)
    ensures r in MeltRows(rows, header) <==>
      exists i, j :: 0 <= i < |rows| && 1 <= j < |header| && ColumnState(header, j).Some? && r == RowFor(rows[i], header, j)
  {
    var ms := Melt(rows, header, 1);
    MapStatesMembership(ms, r);
    if r in MeltRows(rows, header) {
      var k :| 0 <= k < |ms| && ToFinanceRow(ms[k]) == Some(r);
      MeltMembership(rows, header, 1, ms[k]);
      var i, j :| 0 <= i < |rows| && 1 <= j < |header| && ms[k] == MeltedAt(rows, header, i, j);
      assert r == RowFor(rows[i], header, j);
    }
    if exists i, j :: 0 <= i < |rows| && 1 <= j < |header| && ColumnState(header, j).Some? && r == RowFor(rows[i], header, j) {
      var i, j :| 0 <= i < |rows| && 1 <= j < |header| && ColumnState(header, j).Some? && r == RowFor(rows[i], header, j);
      var m := MeltedAt(rows, header, i, j);
      MeltMembership(rows, header, 1, m);
      var k :| 0 <= k < |ms| && ms[k] == m;
      assert ToFinanceRow(ms[k]) == Some(r);
    }
  }

  /** Every output row carries a state of the vocabulary under its own name; aggregates never survive. */
  lemma MeltRowsStates(rows: seq<Row>, header: Row, r: FinanceRow)
    requires r in MeltRows(rows, header)
    ensures StateNames.NameToAbbr(r.stateName) == Some(r.state)
    ensures r.stateName != "United States"
  {
    MeltRowsMembership(rows, header, r);
    StateNames.AggregateNotMapped();
  }

  /**
   * A placeholder amount such as "X" or "-" is not numeric, and its row is
   * still in the table, with the amount missing: only the state drops rows.
   */
  lemma NonNumericKept(rows: seq<Row>, header: Row, i: nat, j: nat)
    requires i < |rows| && 1 <= j < |header| && ColumnState(header, j).Some?
    requires ToNumeric(CellAt(rows[i], j)).None?
    ensures exists r :: r in MeltRows(rows, header) && r.amount.None? && r.category == CellAt(rows[i], 0) && r.state == ColumnState(header, j).value
  {
    MeltRowsMembership(rows, header, RowFor(rows[i], header, j));
  }

  // ---------------------------------------------------------------------
  // load_census_stc / load_census_state_finances
  // ---------------------------------------------------------------------

  /** `df.dropna(subset=["category"])`: the rows whose first cell is not empty, in order. */
  function RowsWithCategory(rows: seq<Row>): (kept: seq<Row>)
    ensures |kept| <= |rows|
    ensures forall k :: 0 <= k < |kept| ==> kept[k] in rows && CellAt(kept[k], 0) != Missing
    ensures forall k :: 0 <= k < |rows| && CellAt(rows[k], 0) != Missing ==> rows[k] in kept
  {
    if rows == [] then []
    else if CellAt(rows[0], 0) == Missing then RowsWithCategory(rows[1..])
    else [rows[0]] + RowsWithCategory(rows[1..])
  }

  /** The category column of a frame. */
  function CategoryColumn(rows: seq<Row>): (cats: seq<Cell>)
    ensures |cats| == |rows| && forall i :: 0 <= i < |rows| ==> cats[i] == CellAt(rows[i], 0)
  {
    seq(|rows|, i requires 0 <= i < |rows| => CellAt(rows[i], 0))
  }

  /** Dropping rows removes exactly as many as have an empty category, duplicates included. */
  lemma {:induction false} RowsWithCategoryCount(rows: seq<Row>)
    ensures |RowsWithCategory(rows)| == |rows| - multiset(CategoryColumn(rows))[Missing]
  {
    if rows != [] {
      RowsWithCategoryCount(rows[1..]);
      assert CategoryColumn(rows) == [CellAt(rows[0], 0)] + CategoryColumn(rows[1..]);
    }
  }

  /** The row test of `dropna(subset=["category"])`, as a filter-map step. */
  function WithCategory(r: Row): Option<Row> {
    if CellAt(r, 0) != Missing then Some(r) else None
  }

  /** Dropping rows keeps the others in their order: it is the order-preserving filter by that test. */
  lemma {:induction false} RowsWithCategoryInOrder(rows: seq<Row>)
    ensures RowsWithCategory(rows) == FilterMap(WithCategory, rows)
  {
    if rows != [] {
      RowsWithCategoryInOrder(rows[1..]);
      var head := [rows[0]];
      assert head + rows[1..] == rows;
      FilterMapAppend(WithCategory, head, rows[1..]);
      assert head[..0] == [];
      assert FilterMap(WithCategory, head) == if CellAt(rows[0], 0) != Missing then head else [];
    }
  }

  /** The long table of a sheet whose header row is `h`. */
  function Tidy(g: Grid, h: nat): seq<FinanceRow>
    requires h < |g|
  {
    MeltRows(RowsWithCategory(g[h + 1..]), g[h])
  }

  /** The STC and state-finances loaders: header scan, then melt/map/drop. */
  method LoadWideSheet(g: Grid, kind: SheetKind) returns (r: Result<seq<FinanceRow>, SheetError>)
    ensures r.Failure? <==> forall i :: 0 <= i < |g| ==> !IsAnchorRow(g[i])
    ensures r.Failure? ==> r.error == HeaderNotFound(kind)
    ensures r.Success? ==> exists h :: IsHeaderRow(g, h) && r.value == Tidy(g, h)
  {
    var header := FindHeaderRow(g, kind);
    if header.Failure? {
      return Failure(header.error);
    }
    return Success(Tidy(g, header.value));
  }

  /** `load_census_stc` */
  method LoadCensusStc(g: Grid) returns (r: Result<seq<FinanceRow>, SheetError>)
    ensures r.Failure? <==> forall i :: 0 <= i < |g| ==> !IsAnchorRow(g[i])
    ensures r.Failure? ==> r.error == HeaderNotFound(Stc)
    ensures r.Success? ==> exists h :: IsHeaderRow(g, h) && r.value == Tidy(g, h)
  {
    r := LoadWideSheet(g, Stc);
  }

  /** `load_census_state_finances` */
  method LoadCensusStateFinances(g: Grid) returns (r: Result<seq<FinanceRow>, SheetError>)
    ensures r.Failure? <==> forall i :: 0 <= i < |g| ==> !IsAnchorRow(g[i])
    ensures r.Failure? ==> r.error == HeaderNotFound(StateFinances)
    ensures r.Success? ==> exists h :: IsHeaderRow(g, h) && r.value == Tidy(g, h)
  {
    r := LoadWideSheet(g, StateFinances);
  }

  /** The size of the long table: kept category rows times state columns. */
  lemma TidyCount(g: Grid, h: nat)
    requires h < |g|
    ensures |Tidy(g, h)| == |RowsWithCategory(g[h + 1..])| * MappedColumns(g[h], 1)
    ensures |Tidy(g, h)| == (|g| - (h + 1) - multiset(CategoryColumn(g[h + 1..]))[Missing]) * MappedColumns(g[h], 1)
  {
    MeltRowsCount(RowsWithCategory(g[h + 1..]), g[h], 1);
    RowsWithCategoryCount(g[h + 1..]);
  }

  // ---------------------------------------------------------------------
  // load_asfin_state_finances
  // ---------------------------------------------------------------------

  predicate IsStartMarker(c: Cell) {
    Mentions(c, "by function")
  }

  predicate IsEndMarker(c: Cell) {
    Mentions(c, "utility expenditure") || Mentions(c, "liquor stores")
  }

  /** A row that closes the section: an end marker that is not also a start marker. */
  predicate ClosesSection(c: Cell) {
    IsEndMarker(c) && !IsStartMarker(c)
  }

  /** `df["category"]`: the first cell of every row. */
  function Categories(rows: seq<Row>): (cats: seq<Cell>)
    ensures |cats| == |rows|
    ensures forall i :: 0 <= i < |rows| ==> cats[i] == CellAt(rows[i], 0)
  {
    seq(|rows|, i requires 0 <= i < |rows| => CellAt(rows[i], 0))
  }

  /**
   * `cats[s..e]` is the expenditure-by-function section: `s - 1` is the last
   * start marker before `e`, and `e` is the first closing row that follows a
   * start marker (or the end of the sheet).
   */
  ghost predicate IsSection(cats: seq<Cell>, s: nat, e: nat) {
    && 0 < s <= e <= |cats|
    && IsStartMarker(cats[s - 1])
    && (forall i :: s <= i < e ==> !IsStartMarker(cats[i]))
    && (e < |cats| ==> ClosesSection(cats[e]))
    && (forall k, i :: 0 <= k < i < e && IsStartMarker(cats[k]) ==> !ClosesSection(cats[i]))
  }

  /** The section search: start after the latest "by function" row, stop at the first closing row after it. */
  method FindFunctionSection(cats: seq<Cell>) returns (r: Result<(nat, nat), SheetError>)
    ensures r.Failure? <==> forall i :: 0 <= i < |cats| ==> !IsStartMarker(cats[i])
    ensures r.Failure? ==> r.error == FunctionSectionNotFound
    ensures r.Success? ==> IsSection(cats, r.value.0, r.value.1)
  {
    var start: Option<nat> := None;
    var end: Option<nat> := None;
    var i := 0;
    while i < |cats|
      invariant 0 <= i <= |cats|
      invariant end.None?
      invariant start.None? ==> forall k :: 0 <= k < i ==> !IsStartMarker(cats[k])
      invariant start.Some? ==> 0 < start.value <= i && IsStartMarker(cats[start.value - 1])
      invariant start.Some? ==> forall k :: start.value <= k < i ==> !IsStartMarker(cats[k])
      invariant forall k, m :: 0 <= k < m < i && IsStartMarker(cats[k]) ==> !ClosesSection(cats[m])
    {
      if IsStartMarker(cats[i]) {
        start := Some(i + 1);
      } else if start.Some? && IsEndMarker(cats[i]) {
        end := Some(i);
        break;
      }
      i := i + 1;
    }
    if start.None? {
      return Failure(FunctionSectionNotFound);
    }
    var e := if end.Some? then end.value else |cats|;
    return Success((start.value, e));
  }

  /** The section is determined: the search's contract admits one window only. */
  lemma SectionUnique(cats: seq<Cell>, s1: nat, e1: nat, s2: nat, e2: nat)
    requires IsSection(cats, s1, e1) && IsSection(cats, s2, e2)
    ensures s1 == s2 && e1 == e2
  {
  }


  /** Marker rows are never inside the section. */
  lemma SectionExcludesMarkers(cats: seq<Cell>, s: nat, e: nat, i: nat)
    requires IsSection(cats, s, e) && s <= i < e
    ensures !IsStartMarker(cats[i]) && !IsEndMarker(cats[i])
  {
    assert !ClosesSection(cats[i]);
  }

  /**
   * A sheet laid out as unmarked rows, one "by function" row, unmarked function
   * rows, and a closing row gives exactly the function rows as its section.
   */
  lemma SectionOfLayout(pre: seq<Cell>, start: Cell, body: seq<Cell>, close: Cell, post: seq<Cell>)
    requires forall c :: c in pre ==> !IsStartMarker(c)
    requires IsStartMarker(start) && ClosesSection(close)
    requires forall c :: c in body ==> !IsStartMarker(c) && !IsEndMarker(c)
    ensures IsSection(pre + [start] + body + [close] + post, |pre| + 1, |pre| + 1 + |body|)
  {
    var cats := pre + [start] + body + [close] + post;
    var s, e := |pre| + 1, |pre| + 1 + |body|;
    assert cats[s - 1] == start && cats[e] == close;
    forall i | s <= i < e ensures !IsStartMarker(cats[i]) {
      assert cats[i] == body[i - s];
    }
    forall k | 0 <= k < |pre| ensures !IsStartMarker(cats[k]) {
      assert cats[k] == pre[k];
    }
    forall k, i | 0 <= k < i < e && IsStartMarker(cats[k]) ensures !ClosesSection(cats[i]) {
      assert cats[i] == body[i - s];
    }
  }

  /**
   * `func_df["category"].str.strip()` on one row: the row with its category
   * stripped when that is text, `None` when the category is not text (pandas
   * turns it into NaN) or is blank once stripped (the length filter).
   */
  function CleanCategory(row: Row): (r: Option<Row>)
    ensures r.Some? ==> |row| >= 1 && |r.value| == |row| && r.value[1..] == row[1..]
  {
    match CellAt(row, 0)
    case Str(t) => if Strip(t) != "" then Some([Str(Strip(t))] + row[1..]) else None
    case _ => None
  }

  /** The section's rows as `func_df` ends up after the category cleaning, in order. */
  function SectionRows(rows: seq<Row>): seq<Row> {
    FilterMap(CleanCategory, rows)
  }

  /**
   * The cleaning keeps exactly the rows whose category is text with something
   * other than whitespace in it, and their categories then have no whitespace
   * at either end.
   */
  lemma CleanCategoryKeeps(row: Row)
    ensures CleanCategory(row).Some? <==> CellAt(row, 0).Str? && !AllSpace(CellAt(row, 0).text)
    ensures CleanCategory(row).Some? ==>
      var t := CellAt(CleanCategory(row).value, 0);
      t.Str? && t.text != [] && !IsSpace(t.text[0]) && !IsSpace(t.text[|t.text| - 1])
  {
    if CellAt(row, 0).Str? {
      StripEmptyIffAllSpace(CellAt(row, 0).text);
      StripSpec(CellAt(row, 0).text);
    }
  }

  lemma SectionRowsMembership(rows: seq<Row>, row: Row)
    ensures row in SectionRows(rows) <==> exists i :: 0 <= i < |rows| && CleanCategory(rows[i]) == Some(row)
  {
    FilterMapMembership(CleanCategory, rows, row);
  }

  /** The long table of an ASFIN sheet from its data rows, header row and section `s..e`. */
  function AsfinTidy(data: seq<Row>, header: Row, s: nat, e: nat): seq<FinanceRow>
    requires s <= e <= |data|
  {
    MeltRows(SectionRows(data[s..e]), header)
  }

  /** No category is a start marker. */
  predicate NoStartMarker(cats: seq<Cell>) {
    forall i :: 0 <= i < |cats| ==> !IsStartMarker(cats[i])
  }

  /**
   * What the ASFIN loader yields below a found header: the melted section,
   * or the section error exactly when no category is a start marker.
   */
  ghost predicate AsfinOutcome(data: seq<Row>, header: Row, r: Result<seq<FinanceRow>, SheetError>) {
    match r
    case Success(rows) =>
      exists s, e :: IsSection(Categories(data), s, e) && rows == AsfinTidy(data, header, s, e)
    case Failure(err) =>
      err == FunctionSectionNotFound && NoStartMarker(Categories(data))
  }

  /** The ASFIN steps after the header scan: section search, category cleaning, melt. */
  method LoadAsfinSection(data: seq<Row>, header: Row) returns (r: Result<seq<FinanceRow>, SheetError>)
    ensures AsfinOutcome(data, header, r)
  {
    var section := FindFunctionSection(Categories(data));
    if section.Failure? {
      return Failure(section.error);
    }
    var (s, e) := section.value;
    return Success(AsfinTidy(data, header, s, e));
  }

  /** `load_asfin_state_finances` */
  method LoadAsfinStateFinances(g: Grid) returns (r: Result<seq<FinanceRow>, SheetError>)
    ensures r == Failure(HeaderNotFound(Asfin)) <==> forall i :: 0 <= i < |g| ==> !IsAnchorRow(g[i])
    ensures r != Failure(HeaderNotFound(Asfin)) ==> exists h: nat :: IsHeaderRow(g, h) && AsfinOutcome(g[h + 1..], g[h], r)
  {
    var header := FindHeaderRow(g, Asfin);
    if header.Failure? {
      return Failure(header.error);
    }
    var h := header.value;
    r := LoadAsfinSection(g[h + 1..], g[h]);
    assert IsHeaderRow(g, h);
  }

  /** The ASFIN table's size: non-blank section rows times state columns. */
  lemma AsfinCount(data: seq<Row>, header: Row, s: nat, e: nat)
    requires s <= e <= |data|
    ensures |AsfinTidy(data, header, s, e)| == |SectionRows(data[s..e])| * MappedColumns(header, 1)
  {
    MeltRowsCount(SectionRows(data[s..e]), header, 1);
  }
}
