/**
 * The city-level tables of `src/city_data_utils.py`: the top-100 city list
 * with its `city_state` keys, the cities' cost-of-living weights inherited
 * from their states, the investment/cost split of city spending, and the
 * one-row-per-key static providers. Every embedded table is a parameter.
 */
module CityData {
  import opened Wrappers
  import opened Numeric
  import opened Lists
  import StateProviders

  // ---------------------------------------------------------------------
  // get_top_100_cities
  // ---------------------------------------------------------------------

  /** One `_CITY_DATA` entry: (city, state, population, lat, lon). */
  datatype CityEntry = CityEntry(city: string, state: string, population: int, lat: real, lon: real)

  /** `city`, `city_state`, `state`, `population`, `lat`, `lon` */
  datatype CityRow = CityRow(city: string, cityState: string, state: string, population: int, lat: real, lon: real)

  /** `f"{city}, {state}"`: the key every city table is indexed by. */
  function CityStateKey(city: string, state: string): string {
    city + ", " + state
  }

  /** The city and the two-letter state of a key. */
  function SplitCityState(key: string): (string, string)
    requires |key| >= 4
  {
    (key[..|key| - 4], key[|key| - 2..])
  }

  /** With two-letter state codes a key gives back its city and state. */
  lemma CityStateRoundTrip(city: string, state: string)
    requires |state| == 2
    ensures SplitCityState(CityStateKey(city, state)) == (city, state)
  {
    var key := CityStateKey(city, state);
    assert key[..|key| - 4] == city;
    assert key[|key| - 2..] == state;
  }

  /** So two cities share a key only when they share both city and state. */
  lemma CityStateKeyInjective(c1: string, s1: string, c2: string, s2: string)
    requires |s1| == 2 && |s2| == 2
    requires CityStateKey(c1, s1) == CityStateKey(c2, s2)
    ensures c1 == c2 && s1 == s2
  {
    CityStateRoundTrip(c1, s1);
    CityStateRoundTrip(c2, s2);
  }

  function CityRowOf(e: CityEntry): CityRow {
    CityRow(e.city, CityStateKey(e.city, e.state), e.state, e.population, e.lat, e.lon)
  }

  /** The append loop over `_CITY_DATA`: one row per entry, in order. */
  method GetTop100Cities(data: seq<CityEntry>) returns (rows: seq<CityRow>)
    ensures |rows| == |data|
    ensures forall k :: 0 <= k < |data| ==> rows[k] == CityRowOf(data[k])
  {
    rows := [];
    for i := 0 to |data|
      invariant |rows| == i
      invariant forall k :: 0 <= k < i ==> rows[k] == CityRowOf(data[k])
    {
      rows := rows + [CityRowOf(data[i])];
    }
  }

  // ---------------------------------------------------------------------
  // get_city_col_weights
  // ---------------------------------------------------------------------

  /** `city_state`, `rpp`, `col_weight`; the weight columns are NaN for a state without a weight. */
  datatype CityWeight = CityWeight(cityState: string, rpp: Option<real>, colWeight: Option<real>)

  /** The weight rows whose state is `state`, in table order. */
  function MatchingWeights(state: string, weights: seq<StateProviders.WeightRow>): seq<StateProviders.WeightRow> {
    FilterMap((w: StateProviders.WeightRow) => if w.state == state then Some(w) else None, weights)
  }

  /** The rows a left merge gives one city: one per matching weight row, or one unmatched row. */
  function JoinCity(c: CityRow, weights: seq<StateProviders.WeightRow>): seq<CityWeight> {
    var ms := MatchingWeights(c.state, weights);
    if ms == [] then [CityWeight(c.cityState, None, None)]
    else seq(|ms|, i requires 0 <= i < |ms| => CityWeight(c.cityState, Some(ms[i].rpp), Some(ms[i].colWeight)))
  }

  /** `cities.merge(state_weights, on="state", how="left")`: the cities' order, each city's matches together. */
  function LeftJoin(cities: seq<CityRow>, weights: seq<StateProviders.WeightRow>): seq<CityWeight> {
    if cities == [] then [] else JoinCity(cities[0], weights) + LeftJoin(cities[1..], weights)
  }

  predicate DistinctStates(weights: seq<StateProviders.WeightRow>) {
    forall i, j :: 0 <= i < j < |weights| ==> weights[i].state != weights[j].state
  }

  /** Against distinct state keys, a state matches no weight row or exactly the one with its key. */
  lemma {:induction false} MatchingWeightsUnique(state: string, weights: seq<StateProviders.WeightRow>)
    requires DistinctStates(weights)
    ensures (forall j :: 0 <= j < |weights| ==> weights[j].state != state) ==> MatchingWeights(state, weights) == []
    ensures forall j :: 0 <= j < |weights| && weights[j].state == state ==> MatchingWeights(state, weights) == [weights[j]]
  {
    if weights != [] {
      var init := weights[..|weights| - 1];
      assert DistinctStates(init);
      MatchingWeightsUnique(state, init);
      assert forall j :: 0 <= j < |init| ==> init[j] == weights[j];
    }
  }

  /** The row a city gets when state keys are distinct. */
  function Inherit(c: CityRow, weights: seq<StateProviders.WeightRow>, j: nat): CityWeight
    requires j <= |weights|
  {
    if j < |weights| then CityWeight(c.cityState, Some(weights[j].rpp), Some(weights[j].colWeight))
    else CityWeight(c.cityState, None, None)
  }

  /**
   * A left join against distinct state keys keeps one row per city, in city
   * order; each city carries its state's `rpp` and `col_weight`, or none when
   * its state has no row.
   */
  lemma {:induction false} LeftJoinOnePerCity(cities: seq<CityRow>, weights: seq<StateProviders.WeightRow>)
    requires DistinctStates(weights)
    ensures |LeftJoin(cities, weights)| == |cities|
    ensures forall k, j :: 0 <= k < |cities| && 0 <= j < |weights| && weights[j].state == cities[k].state ==>
      LeftJoin(cities, weights)[k] == Inherit(cities[k], weights, j)
    ensures forall k :: 0 <= k < |cities| && (forall j :: 0 <= j < |weights| ==> weights[j].state != cities[k].state) ==>
      LeftJoin(cities, weights)[k] == Inherit(cities[k], weights, |weights|)
  {
    if cities != [] {
      var rest := LeftJoin(cities[1..], weights);
      LeftJoinOnePerCity(cities[1..], weights);
      JoinCityOne(cities[0], weights);
      var all := LeftJoin(cities, weights);
      assert all == JoinCity(cities[0], weights) + rest;
      forall k | 1 <= k < |cities| ensures all[k] == rest[k - 1] && cities[k] == cities[1..][k - 1] {
      }
    }
  }

  /** Against distinct state keys, each city gets exactly one row. */
  lemma JoinCityOne(c: CityRow, weights: seq<StateProviders.WeightRow>)
    requires DistinctStates(weights)
    ensures forall j :: 0 <= j < |weights| && weights[j].state == c.state ==> JoinCity(c, weights) == [Inherit(c, weights, j)]
    ensures (forall j :: 0 <= j < |weights| ==> weights[j].state != c.state) ==> JoinCity(c, weights) == [Inherit(c, weights, |weights|)]
  {
    MatchingWeightsUnique(c.state, weights);
  }

  /**
   * `get_city_col_weights`: every city, in order, with the weight of its
   * state; the weights come from the state table's `min(rpp) / rpp`.
   */
  method GetCityColWeights(data: seq<CityEntry>, rpp: StateProviders.Table<real>) returns (rows: seq<CityWeight>)
    requires |rpp| > 0
    requires forall k :: 0 <= k < |rpp| ==> rpp[k].1 > 0.0
    requires DistinctKeys(rpp)
    ensures |rows| == |data|
    ensures forall k :: 0 <= k < |data| ==> rows[k].cityState == CityStateKey(data[k].city, data[k].state)
    ensures forall k, j :: 0 <= k < |data| && 0 <= j < |rpp| && rpp[j].0 == data[k].state ==>
      rows[k].rpp == Some(rpp[j].1) && rows[k].colWeight == Some(StateProviders.MinRpp(rpp) / rpp[j].1)
    ensures forall k :: 0 <= k < |data| && (forall j :: 0 <= j < |rpp| ==> rpp[j].0 != data[k].state) ==>
      rows[k].rpp == None && rows[k].colWeight == None
  {
    var cities := GetTop100Cities(data);
    var weights := StateProviders.GetColWeights(rpp);
    assert DistinctStates(weights);
    LeftJoinOnePerCity(cities, weights);
    rows := LeftJoin(cities, weights);
    forall k | 0 <= k < |data| ensures cities[k].state == data[k].state {
    }
  }

  // ---------------------------------------------------------------------
  // fetch_city_spending
  // ---------------------------------------------------------------------

  /**
   * `city_state`, `spending_per_capita`, `investment_share`,
   * `investment_per_capita`, `cost_per_capita`, `investment_ratio`
   */
  datatype SpendingRow = SpendingRow(
    cityState: string, spendingPerCapita: int, investmentShare: real,
    investmentPerCapita: int, costPerCapita: int, investmentRatio: real)

  /** The investment share of a city missing from the share table. */
  const DefaultInvestmentShare: real := 0.55

  /**
   * One city's split: the share from the share table or the default, the
   * investment and cost parts each rounded to the nearest dollar (ties to even),
   * which can miss the total by one dollar but never by more.
   */
  function SpendingRowFor(cityState: string, total: int, shares: StateProviders.Table<real>): (r: SpendingRow)
    ensures r.cityState == cityState && r.spendingPerCapita == total
    ensures Get(shares, cityState).None? ==> r.investmentShare == DefaultInvestmentShare
    ensures Get(shares, cityState).Some? ==> r.investmentShare == Get(shares, cityState).value
    ensures r.investmentRatio == r.investmentShare
    ensures -0.5 <= r.investmentPerCapita as real - total as real * r.investmentShare <= 0.5
    ensures -0.5 <= r.costPerCapita as real - total as real * (1.0 - r.investmentShare) <= 0.5
    ensures -1 <= r.investmentPerCapita + r.costPerCapita - total <= 1
  {
    var share := Get(shares, cityState).GetOr(DefaultInvestmentShare);
    var investment := RoundHalfEven(total as real * share);
    var cost := RoundHalfEven(total as real * (1.0 - share));
    assert total as real * share + total as real * (1.0 - share) == total as real;
    SpendingRow(cityState, total, share, investment, cost, share)
  }

  /** The append loop over `_CITY_SPENDING_PER_CAPITA`: one row per key, in order, none dropped. */
  method FetchCitySpending(spending: StateProviders.Table<int>, shares: StateProviders.Table<real>)
    returns (rows: seq<SpendingRow>)
    ensures |rows| == |spending|
    ensures forall k :: 0 <= k < |spending| ==> rows[k] == SpendingRowFor(spending[k].0, spending[k].1, shares)
  {
    rows := [];
    for i := 0 to |spending|
      invariant |rows| == i
      invariant forall k :: 0 <= k < i ==> rows[k] == SpendingRowFor(spending[k].0, spending[k].1, shares)
    {
      rows := rows + [SpendingRowFor(spending[i].0, spending[i].1, shares)];
    }
  }

  /** The parts need not add up: a total of 1 at an even split rounds both halves down to 0. */
  lemma SplitCanMissTotal()
    ensures var r := SpendingRowFor("Anytown, ZZ", 1, [("Anytown, ZZ", 0.5)]);
      r.investmentPerCapita + r.costPerCapita == r.spendingPerCapita - 1
  {
    var r := SpendingRowFor("Anytown, ZZ", 1, [("Anytown, ZZ", 0.5)]);
    assert Get([("Anytown, ZZ", 0.5)], "Anytown, ZZ") == Some(0.5);
    assert r.investmentPerCapita == RoundHalfEven(0.5);
    assert r.costPerCapita == RoundHalfEven(0.5);
    assert RoundHalfEven(0.5) == 0 by {
      assert (0.5).Floor == 0;
    }
  }

  // ---------------------------------------------------------------------
  // Static providers
  // ---------------------------------------------------------------------

  /** `city_state` and the provider's value column. */
  datatype CityValue<V> = CityValue(cityState: string, value: V)

  /** `[{"city_state": k, <column>: v} for k, v in table.items()]` */
  function StaticRows<V>(table: StateProviders.Table<V>): (rows: seq<CityValue<V>>)
    ensures |rows| == |table|
    ensures forall k :: 0 <= k < |table| ==> rows[k].cityState == table[k].0 && rows[k].value == table[k].1
  {
    seq(|table|, k requires 0 <= k < |table| => CityValue(table[k].0, table[k].1))
  }

  /** A provider over a dictionary has one row per city key: no key repeats. */
  lemma StaticRowsOnePerKey<V>(table: StateProviders.Table<V>)
    requires DistinctKeys(table)
    ensures forall i, j :: 0 <= i < j < |StaticRows(table)| ==> StaticRows(table)[i].cityState != StaticRows(table)[j].cityState
  {
  }

  /** `fetch_city_tax_revenue`: `tax_per_capita` */
  function FetchCityTaxRevenue(table: StateProviders.Table<int>): seq<CityValue<int>> {
    StaticRows(table)
  }

  /** `fetch_city_crime_data`: `violent_crime` */
  function FetchCityCrimeData(table: StateProviders.Table<int>): seq<CityValue<int>> {
    StaticRows(table)
  }

  /** `fetch_city_health_data`: `health_index` */
  function FetchCityHealthData(table: StateProviders.Table<int>): seq<CityValue<int>> {
    StaticRows(table)
  }

  /** `city_state`, `bachelors_pct`, `hs_grad_pct` */
  datatype EducationRow = EducationRow(cityState: string, bachelorsPct: real, hsGradPct: real)

  /** `fetch_city_education_data`: the pair's first part is the bachelor's share, the second the high-school share. */
  function FetchCityEducationData(table: StateProviders.Table<(real, real)>): (rows: seq<EducationRow>)
    ensures |rows| == |table|
    ensures forall k :: 0 <= k < |table| ==>
      rows[k].cityState == table[k].0 && rows[k].bachelorsPct == table[k].1.0 && rows[k].hsGradPct == table[k].1.1
  {
    seq(|table|, k requires 0 <= k < |table| => EducationRow(table[k].0, table[k].1.0, table[k].1.1))
  }
}
