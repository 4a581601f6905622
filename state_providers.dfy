/**
 * The per-state providers of `src/data_utils.py`: population, SSA OASDI
 * benefits, NAEP scores, FBI violent crime, CDC infant mortality, and the
 * cost-of-living weights.
 *
 * Each provider tries a live source and keeps its result only when it has at
 * least `MinLiveRows` rows; otherwise it rebuilds an embedded table, one row
 * per key, naming each state through the inverted vocabulary. A live source
 * arrives already parsed (`None` when the request, the file or the parse
 * failed), and each embedded table is a parameter.
 */
module StateProviders {
  import opened Wrappers
  import opened Text
  import opened Numeric
  import opened Lists
  import StateNames
  import Sheets

  /** One provider row: `state`, `state_name` and the provider's value column. */
  datatype StateRow<V> = StateRow(state: string, stateName: string, value: V)

  /** An embedded table: abbreviation keys with their values, in the dictionary's order. */
  type Table<V> = seq<(string, V)>

  /** A live result is used only with at least this many rows. */
  const MinLiveRows: nat := 40

  predicate Accepted<V>(live: Option<seq<StateRow<V>>>) {
    live.Some? && |live.value| >= MinLiveRows
  }

  predicate IsAbbr(key: string) {
    StateNames.AbbrToName(key).Some?
  }

  /** Every row's `state_name` is the vocabulary name of its `state`. */
  predicate Named<V>(rows: seq<StateRow<V>>) {
    forall k :: 0 <= k < |rows| ==> StateNames.NameToAbbr(rows[k].stateName) == Some(rows[k].state)
  }

  /** Every key of the table is a vocabulary abbreviation. */
  predicate KeysAreAbbrs<V>(table: Table<V>) {
    forall k :: 0 <= k < |table| ==> IsAbbr(table[k].0)
  }

  // ---------------------------------------------------------------------
  // Fallback tables
  // ---------------------------------------------------------------------

  function FallbackRow<V>(entry: (string, V)): StateRow<V> {
    StateRow(entry.0, StateNames.NameOrAbbr(entry.0), entry.1)
  }

  /** The rows rebuilt from an embedded table: one per key, in order, value unchanged. */
  function FallbackRows<V>(table: Table<V>): (rows: seq<StateRow<V>>)
    ensures |rows| == |table|
    ensures forall k :: 0 <= k < |table| ==> rows[k].state == table[k].0 && rows[k].value == table[k].1
  {
    if table == [] then [] else FallbackRows(table[..|table| - 1]) + [FallbackRow(table[|table| - 1])]
  }

  /**
   * A fallback row's `state_name` is the state's name when the key is an
   * abbreviation (so it maps back to the key) and the key itself otherwise.
   */
  lemma FallbackRowNames<V>(table: Table<V>, k: nat)
    requires k < |table|
    ensures IsAbbr(table[k].0) ==> StateNames.NameToAbbr(FallbackRows(table)[k].stateName) == Some(table[k].0)
    ensures !IsAbbr(table[k].0) ==> FallbackRows(table)[k].stateName == table[k].0
  {
    StateNames.NameOrAbbrSpec(table[k].0);
  }

  /** The fallback loop: append one row per embedded entry. */
  method BuildFallback<V>(table: Table<V>) returns (rows: seq<StateRow<V>>)
    ensures rows == FallbackRows(table)
  {
    rows := [];
    for i := 0 to |table|
      invariant rows == FallbackRows(table[..i])
    {
      assert table[..i + 1][..i] == table[..i];
      rows := rows + [FallbackRow(table[i])];
    }
    assert table[..|table|] == table;
  }

  lemma FallbackNamed<V>(table: Table<V>)
    ensures KeysAreAbbrs(table) ==> Named(FallbackRows(table))
  {
    if KeysAreAbbrs(table) {
      forall k | 0 <= k < |table| ensures IsAbbr(table[k].0) {
      }
      forall k | 0 <= k < |table|
        ensures StateNames.NameToAbbr(FallbackRows(table)[k].stateName) == Some(FallbackRows(table)[k].state)
      {
        FallbackRowNames(table, k);
      }
    }
  }

  /** `fetch_state_population`: the embedded population table only. */
  method FetchStatePopulation(table: Table<int>) returns (rows: seq<StateRow<int>>)
    ensures rows == FallbackRows(table)
  {
    rows := BuildFallback(table);
  }

  /**
   * The provider rule: the live rows when accepted, the embedded table otherwise.
   * The result is named whenever the embedded keys are abbreviations.
   */
  method Provide<V>(live: Option<seq<StateRow<V>>>, fallback: Table<V>) returns (rows: seq<StateRow<V>>)
    ensures Accepted(live) ==> rows == live.value
    ensures !Accepted(live) ==> rows == FallbackRows(fallback)
    ensures |rows| >= MinLiveRows || rows == FallbackRows(fallback)
  {
    if Accepted(live) {
      return live.value;
    }
    rows := BuildFallback(fallback);
  }

  // ---------------------------------------------------------------------
  // CSV sources: SSA and CDC
  // ---------------------------------------------------------------------

  /** A parsed CSV: header names and the cells of each row. */
  datatype CsvTable = CsvTable(columns: seq<string>, rows: seq<seq<Sheets.Cell>>)

  /** `raw.columns = [c.strip() for c in raw.columns]`, lower-cased for the column tests. */
  function ColumnKeys(columns: seq<string>): (keys: seq<string>)
    ensures |keys| == |columns|
  {
    seq(|columns|, c requires 0 <= c < |columns| => Lower(Strip(columns[c])))
  }

  /** `any(key in column for key in keys)` on a normalised column name. */
  predicate HeaderMentions(column: string, keys: seq<string>) {
    exists k :: 0 <= k < |keys| && Contains(column, keys[k])
  }

  /** The first of the normalised column names from `from` on that mentions one of `keys`. */
  function FindColumn(columns: seq<string>, keys: seq<string>, from: nat): (r: Option<nat>)
    ensures r.Some? ==> from <= r.value < |columns| && HeaderMentions(columns[r.value], keys)
    ensures r.Some? ==> forall c :: from <= c < r.value ==> !HeaderMentions(columns[c], keys)
    ensures r.None? ==> forall c :: from <= c < |columns| ==> !HeaderMentions(columns[c], keys)
    decreases |columns| - from
  {
    if from >= |columns| then None
    else if HeaderMentions(columns[from], keys) then Some(from)
    else FindColumn(columns, keys, from + 1)
  }

  /** `astype(str).str.replace(",", "")` ahead of the numeric coercion; a number's text has no comma. */
  function WithoutCommas(c: Sheets.Cell): Sheets.Cell {
    match c
    case Str(s) => Sheets.Str(ReplaceAll(s, ",", ""))
    case _ => c
  }

  /** One CSV row kept by `map(_state_name_to_abbr())` and `dropna(subset=["state", value])`. */
  function CsvRow(row: seq<Sheets.Cell>, stateCol: nat, valueCol: nat, dropCommas: bool): Option<StateRow<real>> {
    var name := Sheets.CellAt(row, stateCol);
    var cell := Sheets.CellAt(row, valueCol);
    var amount := Sheets.ToNumeric(if dropCommas then WithoutCommas(cell) else cell);
    if name.Str? && StateNames.NameToAbbr(name.text).Some? && amount.Some? then
      Some(StateRow(StateNames.NameToAbbr(name.text).value, name.text, amount.value))
    else None
  }

  /**
   * The live rows of a CSV source: `None` without a response or when no column
   * mentions "state" or none mentions one of `valueKeys`; otherwise the rows
   * whose state name maps and whose value is numeric, in file order.
   */
  function CsvLive(response: Option<CsvTable>, valueKeys: seq<string>, dropCommas: bool): Option<seq<StateRow<real>>> {
    if response.None? then None
    else
      var t := response.value;
      var stateCol := FindColumn(ColumnKeys(t.columns), ["state"], 0);
      var valueCol := FindColumn(ColumnKeys(t.columns), valueKeys, 0);
      if stateCol.Some? && valueCol.Some? then
        Some(FilterMap((row: seq<Sheets.Cell>) => CsvRow(row, stateCol.value, valueCol.value, dropCommas), t.rows))
      else None
  }

  /**
   * What a live CSV source holds: a row for exactly those lines whose state
   * cell is a vocabulary name and whose value cell is numeric, each under its
   * abbreviation.
   */
  lemma CsvLiveMembership(t: CsvTable, valueKeys: seq<string>, dropCommas: bool, r: StateRow<real>)
    requires CsvLive(Some(t), valueKeys, dropCommas).Some?
    ensures var sc, vc := FindColumn(ColumnKeys(t.columns), ["state"], 0).value, FindColumn(ColumnKeys(t.columns), valueKeys, 0).value;
      r in CsvLive(Some(t), valueKeys, dropCommas).value <==>
      exists i :: 0 <= i < |t.rows| && CsvRow(t.rows[i], sc, vc, dropCommas) == Some(r)
  {
    var sc, vc := FindColumn(ColumnKeys(t.columns), ["state"], 0).value, FindColumn(ColumnKeys(t.columns), valueKeys, 0).value;
    FilterMapMembership((row: seq<Sheets.Cell>) => CsvRow(row, sc, vc, dropCommas), t.rows, r);
  }

  /** A row a CSV line produces carries the state its name maps to. */
  lemma CsvRowNamed(row: seq<Sheets.Cell>, stateCol: nat, valueCol: nat, dropCommas: bool)
    ensures var r := CsvRow(row, stateCol, valueCol, dropCommas);
      r.Some? ==> StateNames.NameToAbbr(r.value.stateName) == Some(r.value.state)
  {
  }

  /** Whenever every row `f` produces is named, so is the whole filter-map. */
  lemma FilterMapNamed<A>(f: A -> Option<StateRow<real>>, xs: seq<A>)
    requires forall k :: 0 <= k < |xs| && f(xs[k]).Some? ==>
      StateNames.NameToAbbr(f(xs[k]).value.stateName) == Some(f(xs[k]).value.state)
    ensures Named(FilterMap(f, xs))
  {
    var rows := FilterMap(f, xs);
    forall k | 0 <= k < |rows| ensures StateNames.NameToAbbr(rows[k].stateName) == Some(rows[k].state) {
      FilterMapMembership(f, xs, rows[k]);
    }
  }

  /** Every row of a live CSV table is named. */
  lemma CsvLiveNamed(response: Option<CsvTable>, valueKeys: seq<string>, dropCommas: bool)
    ensures CsvLive(response, valueKeys, dropCommas).Some? ==> Named(CsvLive(response, valueKeys, dropCommas).value)
  {
    if CsvLive(response, valueKeys, dropCommas).Some? {
      var t := response.value;
      var sc, vc := FindColumn(ColumnKeys(t.columns), ["state"], 0).value, FindColumn(ColumnKeys(t.columns), valueKeys, 0).value;
      var f := (row: seq<Sheets.Cell>) => CsvRow(row, sc, vc, dropCommas);
      forall k | 0 <= k < |t.rows| && f(t.rows[k]).Some?
        ensures StateNames.NameToAbbr(f(t.rows[k]).value.stateName) == Some(f(t.rows[k]).value.state)
      {
        CsvRowNamed(t.rows[k], sc, vc, dropCommas);
      }
      FilterMapNamed(f, t.rows);
    }
  }

  /** A header without any "state" column yields no live table, whatever its rows. */
  lemma CsvLiveNeedsStateColumn(t: CsvTable, valueKeys: seq<string>, dropCommas: bool)
    requires forall c :: 0 <= c < |t.columns| ==> !Contains(Lower(Strip(t.columns[c])), "state")
    ensures CsvLive(Some(t), valueKeys, dropCommas) == None
  {
    var keys := ["state"];
    var names := ColumnKeys(t.columns);
    forall c | 0 <= c < |names| ensures !HeaderMentions(names[c], keys) {
      assert forall k :: 0 <= k < |keys| ==> keys[k] == "state";
    }
  }

  function SsaLive(response: Option<CsvTable>): Option<seq<StateRow<real>>> {
    CsvLive(response, ["total", "benefit"], true)
  }

  /** `fetch_ssa_oasdi_payments`: total benefits, commas removed before the numeric coercion. */
  method FetchSsaOasdiPayments(response: Option<CsvTable>, fallback: Table<real>) returns (rows: seq<StateRow<real>>)
    ensures Accepted(SsaLive(response)) ==> rows == SsaLive(response).value
    ensures !Accepted(SsaLive(response)) ==> rows == FallbackRows(fallback)
    ensures KeysAreAbbrs(fallback) ==> Named(rows)
  {
    CsvLiveNamed(response, ["total", "benefit"], true);
    FallbackNamed(fallback);
    rows := Provide(SsaLive(response), fallback);
  }

  function CdcLive(file: Option<CsvTable>): Option<seq<StateRow<real>>> {
    CsvLive(file, ["rate", "mort"], false)
  }

  /** `load_cdc_infant_mortality`: a downloaded CSV when given and usable, the embedded rates otherwise. */
  method LoadCdcInfantMortality(file: Option<CsvTable>, fallback: Table<real>) returns (rows: seq<StateRow<real>>)
    ensures Accepted(CdcLive(file)) ==> rows == CdcLive(file).value
    ensures !Accepted(CdcLive(file)) ==> rows == FallbackRows(fallback)
    ensures KeysAreAbbrs(fallback) ==> Named(rows)
  {
    CsvLiveNamed(file, ["rate", "mort"], false);
    FallbackNamed(fallback);
    rows := Provide(CdcLive(file), fallback);
  }

  // ---------------------------------------------------------------------
  // NAEP
  // ---------------------------------------------------------------------

  /** One API result: its jurisdiction name and its score as received (absent, text or number). */
  datatype NaepResult = NaepResult(jurisdiction: string, score: Sheets.Cell)

  /** `float(score)`, which ignores surrounding whitespace; `None` where it raises. */
  function ScoreValue(c: Sheets.Cell): Option<real> {
    match c
    case Num(x) => Some(x)
    case Str(s) => ParseDecimal(Strip(s))
    case Missing => None
  }

  /** The row a result adds: absent or unparsable scores and unknown names add none. */
  function NaepRow(r: NaepResult): Option<StateRow<real>> {
    var score := ScoreValue(r.score);
    var abbr := StateNames.NameToAbbr(r.jurisdiction);
    if score.Some? && abbr.Some? then Some(StateRow(abbr.value, r.jurisdiction, score.value)) else None
  }

  /** The live loop over the API results. */
  method ParseNaepResults(results: seq<NaepResult>) returns (rows: seq<StateRow<real>>)
    ensures rows == FilterMap(NaepRow, results)
    ensures Named(rows)
    ensures |rows| <= |results|
  {
    rows := [];
    for i := 0 to |results|
      invariant rows == FilterMap(NaepRow, results[..i])
      invariant Named(rows)
    {
      FilterMapSnoc(NaepRow, results, i);
      var row := NaepRow(results[i]);
      if row.Some? {
        rows := rows + [row.value];
      }
    }
    assert results[..|results|] == results;
    FilterMapLength(NaepRow, results);
  }

  /** The live NAEP table: parsed only when the API returned at least `MinLiveRows` results. */
  function NaepLive(results: Option<seq<NaepResult>>): Option<seq<StateRow<real>>> {
    if results.Some? && |results.value| >= MinLiveRows then Some(FilterMap(NaepRow, results.value)) else None
  }

  /** `fetch_naep_scores`: the embedded table is the math one exactly when the subject is "mathematics". */
  method FetchNaepScores(results: Option<seq<NaepResult>>, subject: string, math: Table<real>, reading: Table<real>)
    returns (rows: seq<StateRow<real>>)
    ensures Accepted(NaepLive(results)) ==> rows == NaepLive(results).value
    ensures !Accepted(NaepLive(results)) && subject == "mathematics" ==> rows == FallbackRows(math)
    ensures !Accepted(NaepLive(results)) && subject != "mathematics" ==> rows == FallbackRows(reading)
  {
    if results.Some? && |results.value| >= MinLiveRows {
      var parsed := ParseNaepResults(results.value);
      if |parsed| >= MinLiveRows {
        return parsed;
      }
    }
    var fallback := if subject == "mathematics" then math else reading;
    rows := BuildFallback(fallback);
  }

  /** Live NAEP rows are always named, and a live table needs at least 40 raw results and 40 kept ones. */
  lemma NaepLiveProperties(results: Option<seq<NaepResult>>)
    ensures NaepLive(results).Some? ==> Named(NaepLive(results).value)
    ensures Accepted(NaepLive(results)) ==> |results.value| >= MinLiveRows
  {
    if NaepLive(results).Some? {
      var rows := NaepLive(results).value;
      forall k | 0 <= k < |rows| ensures StateNames.NameToAbbr(rows[k].stateName) == Some(rows[k].state) {
        FilterMapMembership(NaepRow, results.value, rows[k]);
      }
    }
  }

  // ---------------------------------------------------------------------
  // FBI
  // ---------------------------------------------------------------------

  /** One API result: abbreviation, population and violent-crime count (0 where absent). */
  datatype FbiResult = FbiResult(stateAbbr: string, population: real, violentCrime: real)

  /** The exact rate per 100,000 residents. */
  function PerHundredThousand(count: real, population: real): real
    requires population > 0.0
  {
    count / population * 100000.0
  }

  /** The row a result adds: known abbreviation and positive population, rate rounded to one decimal. */
  function FbiRow(r: FbiResult): Option<StateRow<real>> {
    match StateNames.AbbrToName(r.stateAbbr)
    case Some(name) =>
      if r.population > 0.0 then
        Some(StateRow(r.stateAbbr, name, RoundTenths(PerHundredThousand(r.violentCrime, r.population))))
      else None
    case None => None
  }

  /** The FBI live loop. */
  method ParseFbiResults(results: seq<FbiResult>) returns (rows: seq<StateRow<real>>)
    ensures rows == FilterMap(FbiRow, results)
    ensures Named(rows)
  {
    rows := [];
    for i := 0 to |results|
      invariant rows == FilterMap(FbiRow, results[..i])
      invariant Named(rows)
    {
      FilterMapSnoc(FbiRow, results, i);
      var row := FbiRow(results[i]);
      if row.Some? {
        StateNames.InverseRoundTrip(row.value.stateName, row.value.state);
        rows := rows + [row.value];
      }
    }
    assert results[..|results|] == results;
  }

  /** The live FBI table: only with an API key and at least `MinLiveRows` results. */
  function FbiLive(apiKey: string, results: Option<seq<FbiResult>>): Option<seq<StateRow<real>>> {
    if apiKey != "" && results.Some? && |results.value| >= MinLiveRows then Some(FilterMap(FbiRow, results.value))
    else None
  }

  /** `fetch_fbi_crime_data` */
  method FetchFbiCrimeData(apiKey: string, results: Option<seq<FbiResult>>, fallback: Table<real>)
    returns (rows: seq<StateRow<real>>)
    ensures Accepted(FbiLive(apiKey, results)) ==> rows == FbiLive(apiKey, results).value
    ensures !Accepted(FbiLive(apiKey, results)) ==> rows == FallbackRows(fallback)
    ensures apiKey == "" ==> rows == FallbackRows(fallback)
  {
    if apiKey != "" && results.Some? && |results.value| >= MinLiveRows {
      var parsed := ParseFbiResults(results.value);
      if |parsed| >= MinLiveRows {
        return parsed;
      }
    }
    rows := BuildFallback(fallback);
  }

  /** A live FBI rate is within a twentieth of the exact rate per 100,000, and comes from a positive population. */
  lemma FbiRate(results: seq<FbiResult>, r: StateRow<real>)
    requires r in FilterMap(FbiRow, results)
    ensures exists k ::
      && 0 <= k < |results|
      && results[k].stateAbbr == r.state && results[k].population > 0.0
      && -0.05 <= r.value - PerHundredThousand(results[k].violentCrime, results[k].population) <= 0.05
  {
    FilterMapMembership(FbiRow, results, r);
  }

  // ---------------------------------------------------------------------
  // Cost of living
  // ---------------------------------------------------------------------

  /** `state`, `rpp`, `col_weight` */
  datatype WeightRow = WeightRow(state: string, rpp: real, colWeight: real)

  /** `min(_RPP_2023.values())` */
  function MinRpp(rpp: Table<real>): (m: real)
    requires |rpp| > 0
    ensures forall k :: 0 <= k < |rpp| ==> m <= rpp[k].1
    ensures exists k :: 0 <= k < |rpp| && m == rpp[k].1
  {
    if |rpp| == 1 then rpp[0].1
    else
      var rest := MinRpp(rpp[1..]);
      assert forall k :: 1 <= k < |rpp| ==> rpp[k] == rpp[1..][k - 1];
      if rpp[0].1 <= rest then rpp[0].1 else rest
  }

  /**
   * `get_col_weights`: each state's weight is the cheapest price level over its
   * own, so it lies in (0, 1] and is exactly 1 for the cheapest states.
   */
  method GetColWeights(rpp: Table<real>) returns (rows: seq<WeightRow>)
    requires |rpp| > 0
    requires forall k :: 0 <= k < |rpp| ==> rpp[k].1 > 0.0
    ensures |rows| == |rpp|
    ensures forall k :: 0 <= k < |rows| ==>
      rows[k].state == rpp[k].0 && rows[k].rpp == rpp[k].1 && rows[k].colWeight == MinRpp(rpp) / rpp[k].1
    ensures forall k :: 0 <= k < |rows| ==> 0.0 < rows[k].colWeight <= 1.0
    ensures forall k :: 0 <= k < |rows| ==> (rows[k].colWeight == 1.0 <==> rpp[k].1 == MinRpp(rpp))
    ensures exists k :: 0 <= k < |rows| && rows[k].colWeight == 1.0
  {
    var minRpp := MinRpp(rpp);
    rows := [];
    for i := 0 to |rpp|
      invariant |rows| == i
      invariant forall k :: 0 <= k < i ==> rows[k] == WeightRow(rpp[k].0, rpp[k].1, minRpp / rpp[k].1)
    {
      rows := rows + [WeightRow(rpp[i].0, rpp[i].1, minRpp / rpp[i].1)];
    }
    forall k | 0 <= k < |rows|
      ensures 0.0 < rows[k].colWeight <= 1.0
      ensures rows[k].colWeight == 1.0 <==> rpp[k].1 == minRpp
    {
      WeightBounds(minRpp, rpp[k].1);
    }
    var k :| 0 <= k < |rpp| && minRpp == rpp[k].1;
    assert rows[k].colWeight == 1.0;
  }

  lemma WeightBounds(m: real, r: real)
    requires 0.0 < m <= r
    ensures 0.0 < m / r <= 1.0
    ensures m / r == 1.0 <==> r == m
  {
  }
}
