# Public Good Index: data loaders, report generator and city tables in Dafny

This project models the data-handling core of the Public Good Index, a set of
Python scripts that score US states and cities on what their taxes buy. It
covers three parts.

- **State loaders** (`src/data_utils.py`):
  - Three spreadsheet normalisers turn a wide Census sheet into long
    `(state, state_name, category, amount)` rows: `load_census_stc`,
    `load_census_state_finances` and `load_asfin_state_finances`. Each one
    finds the header row by its "United States" anchor, melts the grid, coerces
    amounts to numbers and keeps only the columns named after one of 51 states.
    The ASFIN loader also cuts out the "by function" section.
  - The 51-entry name→abbreviation vocabulary and its inverse.
  - The cost-of-living weight `min(rpp)/rpp`.
  - The state providers, which take a live result only when it has at least
    40 rows and otherwise rebuild an embedded table, one row per key.
- **Report generator** (`scripts/generate_html.py`):
  - `extract_outputs` turns a notebook into an HTML fragment. It rewrites
    markdown line by line, dispatches on output kinds, and merges Plotly layout
    defaults.
  - `main` assembles the sections and the navigation.
- **City tables** (`src/city_data_utils.py`):
  - The top-100 list with its `city_state` keys.
  - The left join of each city onto its state's weight.
  - The investment/cost spending split.
  - The one-row-per-key static providers.

The modules are:

- `StateNames`: the vocabulary and its inverse.
- `Sheets`: the normalisers.
- `StateProviders`: the fallback providers and `get_col_weights`.
- `Notebook`: `extract_outputs`.
- `Report`: `main`.
- `CityData`: the city tables.
- `Text`, `Numeric`, `Lists` and `Wrappers`: the string, number and list
  primitives these share.

Loops that build lists in the source are methods with loop invariants. Each
is proved equal to a specification function, and the properties are lemmas
about those functions. Python dictionaries are association lists in insertion
order, so `dict.get` is `Lists.Get`.

A spreadsheet is a grid of cells: text, number or empty. Everything that
reads a file, calls a network service, draws a random id or serialises JSON
is a parameter:

- a fetch that failed is `None`;
- `ids(c, o)` is the token of output `o` of cell `c`;
- `dumps` renders a JSON value;
- `load(name)` is the parsed notebook, or `None` when it is missing;
- each embedded table is an argument.

Numbers are exact reals. Python's `round` is modelled as round-half-to-even
on reals.

Where the specification and the code disagree, the model follows the code:

- A non-numeric amount becomes missing, but its row is kept. The only drop
  after the melt is on the state column (`src/data_utils.py:69-75`). The
  specification says such rows are dropped.

## Model

| member | source | states |
|---|---|---|
| StateNames.VocabularySize | src/data_utils.py:126-145 | the vocabulary has 51 entries, and no two of them share a name or an abbreviation |
| StateNames.NameInjective | src/data_utils.py:126-145 | no two entries share a full name |
| StateNames.AbbrInjective | src/data_utils.py:126-145 | no two entries share an abbreviation |
| StateNames.AbbrShape | src/data_utils.py:126-145 | every abbreviation is two upper-case letters |
| StateNames.NameToAbbrSpec | src/data_utils.py:126-145 | the lookup succeeds exactly on the 51 names and gives each one its own entry's abbreviation |
| StateNames.AbbrToNameSpec | src/data_utils.py:175 | the inverted dictionary succeeds exactly on the 51 abbreviations and gives each one its own entry's name |
| StateNames.InverseRoundTrip | src/data_utils.py:175 | name→abbreviation and abbreviation→name are inverse: `NameToAbbr(n) == Some(a)` iff `AbbrToName(a) == Some(n)` |
| StateNames.NameOrAbbrSpec | src/data_utils.py:183 | `abbr_to_name.get(a, a)` names a state that maps back to `a` when `a` is an abbreviation, and is `a` itself otherwise |
| StateNames.NameToAbbrInjective | src/data_utils.py:126-145 | two different names never map to the same abbreviation |
| StateNames.NotUnitedStates | src/data_utils.py:126-145 | no entry is named "United States" |
| StateNames.AggregateNotMapped | src/data_utils.py:72-75 | the "United States" aggregate column has no abbreviation, so it is dropped |
| Sheets.FindHeaderRow | src/data_utils.py:44-50 | the header is the first row with a cell mentioning "united states" in any case; the header error is raised iff no row does |
| Sheets.HeaderRowUnique | src/data_utils.py:44-48 | at most one row is the first anchor row |
| Sheets.RowsWithCategory | src/data_utils.py:60 | exactly the rows with a non-empty category survive, and nothing else |
| Sheets.RowsWithCategoryCount | src/data_utils.py:60 | `dropna` removes exactly as many rows as have an empty category, duplicates included |
| Sheets.RowsWithCategoryInOrder | src/data_utils.py:60 | the surviving rows keep their order and multiplicity: the result is the order-preserving filter by "category present" |
| Sheets.MeltMembership | src/data_utils.py:62-66 | an entry is in the melt iff it comes from some category row and some value column |
| Sheets.MeltLength | src/data_utils.py:62-66 | the melt has one entry per category row for each value column |
| Sheets.MeltAt | src/data_utils.py:62-66 | the entry for category row `i` and column `c` sits at position `i` of block `c - j`, column-major as pandas melts |
| Sheets.MeltLayout | src/data_utils.py:62-66 | the melt holds exactly one entry per (category row, value column) pair: rows times columns entries, with the pair (row `i`, column `c`) at position `(c - j) * n + i` for `n` category rows |
| Sheets.MapStatesMembership | src/data_utils.py:72-75 | after the map and the drop, a row is present iff some melted entry's column maps to it |
| Sheets.MapStatesColumn | src/data_utils.py:72-75 | a column is kept whole when its header is a state name, and dropped whole otherwise |
| Sheets.ColumnStatesDistinct | src/data_utils.py:62-72 | two different columns never map to the same state |
| Sheets.MeltRowsCount | src/data_utils.py:60-75 | the long table has exactly (kept category rows) × (state columns) rows |
| Sheets.MeltRowsMembership | src/data_utils.py:62-75 | a row is in the long table iff it comes from one category row and one state column, with the amount coerced (missing when not numeric, but kept) |
| Sheets.MeltRowsStates | src/data_utils.py:72-75 | every output row's `state` is the abbreviation of its `state_name`, and no row is the "United States" aggregate |
| Sheets.NonNumericKept | src/data_utils.py:68-75 | a cell that is not numeric still gives a row of the long table, with the amount missing |
| Sheets.LoadWideSheet | src/data_utils.py:44-77 | fails with the header error iff no row has the anchor; otherwise it gives the long table below the first anchor row |
| Sheets.LoadCensusStc | src/data_utils.py:30-77 | `load_census_stc`: the header error iff there is no anchor row, the long table below the header otherwise |
| Sheets.LoadCensusStateFinances | src/data_utils.py:228-263 | `load_census_state_finances`: the same contract with its own error |
| Sheets.TidyCount | src/data_utils.py:60-75 | the size of a loaded table is the number of data rows minus those with an empty category, times the state columns |
| Sheets.FindFunctionSection | src/data_utils.py:298-312 | the section starts after the latest "by function" row and ends at the first later "utility expenditure"/"liquor stores" row or at the sheet end; the section error iff there is no "by function" row |
| Sheets.SectionUnique | src/data_utils.py:298-312 | the section contract admits exactly one window |
| Sheets.SectionExcludesMarkers | src/data_utils.py:298-315 | no start or end marker row lies inside the section |
| Sheets.SectionOfLayout | src/data_utils.py:298-315 | a sheet with a preamble, a "by function" row, function rows and a closing row yields exactly the function rows |
| Sheets.CleanCategory | src/data_utils.py:316-320 | a kept row differs from its source only in the category cell |
| Sheets.CleanCategoryKeeps | src/data_utils.py:316-320 | a row is kept iff its category is text with a non-whitespace character; the kept category has no whitespace at either end |
| Sheets.SectionRowsMembership | src/data_utils.py:315-320 | the cleaned section holds exactly the cleaned forms of the section's keepable rows |
| Sheets.LoadAsfinSection | src/data_utils.py:296-331 | below the header: the section error iff no category mentions "by function", otherwise the melted, cleaned section |
| Sheets.LoadAsfinStateFinances | src/data_utils.py:266-331 | `load_asfin_state_finances`: the header error iff there is no anchor row, otherwise the section outcome below the first anchor row |
| Sheets.AsfinCount | src/data_utils.py:315-331 | the ASFIN table has (kept section rows) × (state columns) rows |
| StateProviders.FallbackRows | src/data_utils.py:179-185 | one fallback row per embedded entry, in table order, with key and value unchanged |
| StateProviders.FallbackRowNames | src/data_utils.py:183 | a fallback row's `state_name` maps back to its key when the key is an abbreviation, and is the key itself otherwise |
| StateProviders.FallbackNamed | src/data_utils.py:175-185 | with abbreviation keys, every fallback row's name maps back to its state |
| StateProviders.BuildFallback | src/data_utils.py:179-185 | the append loop yields exactly the fallback rows |
| StateProviders.FetchStatePopulation | src/data_utils.py:170-186 | `fetch_state_population` returns the embedded population table as fallback rows |
| StateProviders.Provide | src/data_utils.py:384-398 | the live rows are returned iff they exist and number at least 40; otherwise the embedded table is returned |
| StateProviders.FindColumn | src/data_utils.py:372-374 | the first stripped, lower-cased column name that mentions one of the keys, or none when no column does |
| StateProviders.CsvLiveMembership | src/data_utils.py:376-383 | a live CSV table holds exactly the lines whose state cell is a vocabulary name and whose value is numeric |
| StateProviders.CsvLiveNamed | src/data_utils.py:382-383 | every live CSV row's `state` is the abbreviation of its `state_name` |
| StateProviders.CsvLiveNeedsStateColumn | src/data_utils.py:373-376 | without a column mentioning "state" there is no live table, whatever the rows |
| StateProviders.FetchSsaOasdiPayments | src/data_utils.py:353-398 | `fetch_ssa_oasdi_payments`: the live table (commas removed before coercion) when it has at least 40 rows, else the embedded table; named whenever the embedded keys are abbreviations |
| StateProviders.LoadCdcInfantMortality | src/data_utils.py:574-611 | `load_cdc_infant_mortality`: the same rule over a given CSV |
| StateProviders.ParseNaepResults | src/data_utils.py:459-470 | the loop keeps exactly the results with a parsable score and a vocabulary name, in order, each named |
| StateProviders.FetchNaepScores | src/data_utils.py:434-486 | live rows only with at least 40 results and 40 kept rows; otherwise the math table iff the subject is "mathematics", else the reading table |
| StateProviders.NaepLiveProperties | src/data_utils.py:458-471 | live NAEP rows are named, and an accepted live table came from at least 40 results |
| StateProviders.ParseFbiResults | src/data_utils.py:526-537 | the loop keeps exactly the results with a known abbreviation and a positive population, in order, each named |
| StateProviders.FetchFbiCrimeData | src/data_utils.py:508-552 | without an API key always the embedded table; otherwise live rows iff at least 40 results and 40 kept rows |
| StateProviders.FbiRate | src/data_utils.py:531-536 | every live rate is within 0.05 of the exact violent crimes per 100,000 residents of a result with positive population |
| StateProviders.MinRpp | src/data_utils.py:217 | the minimum is attained by some entry and is no larger than any entry |
| StateProviders.GetColWeights | src/data_utils.py:210-221 | one row per state in table order, with weight `min/rpp` in (0, 1]; a weight is exactly 1 iff the state has the minimum RPP, and some state has weight 1 |
| StateProviders.WeightBounds | src/data_utils.py:217-220 | `m/r` lies in (0, 1] for 0 < m ≤ r, and equals 1 iff r = m |
| Notebook.SetDefaultsSpec | scripts/generate_html.py:69-74 | `setdefault` never overwrites: a present key keeps its value, a missing key takes the default, and existing entries keep their order |
| Notebook.SetDefaultsCovers | scripts/generate_html.py:69-74 | after the defaults every default key is present |
| Notebook.SetDefaultsPresent | scripts/generate_html.py:69-74 | defaults whose keys are all present change nothing |
| Notebook.SetDefaultsIdempotent | scripts/generate_html.py:69-74 | applying the defaults twice is the same as applying them once |
| Notebook.WithLayoutDefaultsFails | scripts/generate_html.py:68-74 | the merge raises iff the layout, or the margin it already has, is not an object |
| Notebook.WithLayoutDefaultsKeeps | scripts/generate_html.py:68-74 | the merged layout has the caller's `autosize` or `true`, the caller's margins or 10/10/40/10, and every other key untouched |
| Notebook.WithLayoutDefaultsIdempotent | scripts/generate_html.py:68-74 | merging an already merged layout changes nothing |
| Notebook.OutputPartFails | scripts/generate_html.py:55-109 | an output raises iff it is a Plotly figure whose layout cannot take the defaults; otherwise it adds at most one part |
| Notebook.HtmlDivWrapsTables | scripts/generate_html.py:86-92 | the table wrapper is used iff the HTML contains `<table`, and the HTML is kept whole |
| Notebook.OutputPrecedence | scripts/generate_html.py:59-103 | a Plotly figure hides any HTML or PNG in the same output, HTML hides a PNG, and an output with none of the three shows nothing |
| Notebook.StreamShown | scripts/generate_html.py:106-109 | a stream adds its text verbatim in a `<pre>` block iff the text is not all whitespace |
| Notebook.LineHtmlDropsBlank | scripts/generate_html.py:37-48 | a markdown line produces no HTML iff it is whitespace only |
| Notebook.BlankIsNoMarkup | scripts/generate_html.py:37-46 | a line that starts with whitespace matches none of the heading, bold or list prefixes |
| Notebook.LineHtmlHeadings | scripts/generate_html.py:37-42 | `### t` becomes `<h4>t</h4>`; `## t` and `# t` become `<h3>t</h3>` |
| Notebook.LineHtmlBold | scripts/generate_html.py:43-44 | `**t**` becomes `<p><strong>t</strong></p>` |
| Notebook.LineHtmlListItem | scripts/generate_html.py:45-46 | `- t` becomes `<li>t</li>` |
| Notebook.LineHtmlParagraph | scripts/generate_html.py:47-48 | a line with none of the markers becomes `<p>line</p>`, or nothing when it is blank |
| Notebook.LineHtmlShortBold | scripts/generate_html.py:43-44 | `**` and `***` are bold markers around an empty text, as `line[2:-2]` gives |
| Notebook.LineHtmlNoNewline | scripts/generate_html.py:37-48 | a rewritten line holds no newline |
| Notebook.RenderMarkdown | scripts/generate_html.py:33-49 | the line loop yields the cell's lines rewritten and joined with newlines, blank lines dropped |
| Notebook.MarkdownHtmlLines | scripts/generate_html.py:36-49 | the cell's HTML splits back into exactly one line per kept source line |
| Notebook.CodeCellParts | scripts/generate_html.py:55-109 | the output loop yields the outputs' parts in output order, or raises at the first bad figure |
| Notebook.ExtractOutputs | scripts/generate_html.py:25-111 | `extract_outputs` yields the cell parts in cell order joined with newlines: one part per markdown cell, the shown outputs of code cells, nothing for other cells |
| Notebook.FragmentFails | scripts/generate_html.py:55-83 | a notebook raises iff one of its code cells has a Plotly output whose layout cannot take the defaults |
| Notebook.FragmentShowsStream | scripts/generate_html.py:106-111 | a non-blank stream output of a code cell appears verbatim in the fragment |
| Notebook.BlankMarkdownCells | scripts/generate_html.py:49 | every markdown cell adds a part even when empty, so two blank markdown cells give the non-empty fragment "\n" |
| Report.SectionTitleNoUnderscore | scripts/generate_html.py:124 | a section title never holds an underscore |
| Report.SectionTitleChars | scripts/generate_html.py:124 | the title of `stem.ipynb` has the length of the stem; each character is the stem's with `_` as a space, upper-cased at the start of a word and lower-cased inside one |
| Report.SlugInjective | scripts/generate_html.py:131 | different section numbers give different anchors |
| Report.CollectSections | scripts/generate_html.py:115-125 | the first loop of `main` yields the sections of the notebooks in order |
| Report.SectionsKept | scripts/generate_html.py:116-125 | a section exists iff some notebook exists and renders to a non-empty fragment; its title is that notebook's title |
| Report.SectionsFail | scripts/generate_html.py:116-122 | the report fails iff a notebook that exists fails to render |
| Report.EmptyFragmentSkipped | scripts/generate_html.py:111-123 | a notebook is skipped iff its parts are none at all or a single empty part |
| Report.BuildPage | scripts/generate_html.py:128-138 | one navigation link and one section block per section, both numbered `section-i` by the section's position |
| Report.GenerateReport | scripts/generate_html.py:114-138 | over the report's eight notebooks in list order: the page fails iff the sections fail; otherwise the navigation and content are the joined links and blocks, numbered consecutively |
| Report.LinksReachSections | scripts/generate_html.py:130-138 | the i-th navigation link points at `#section-i`, and the content holds the anchor `section-i` and that section's fragment |
| Report.NavItemLinks | scripts/generate_html.py:132 | a navigation link holds the `href` of its section's anchor |
| Report.SectionBlockHolds | scripts/generate_html.py:133-138 | a section block holds its anchor and its fragment |
| CityData.CityStateRoundTrip | src/city_data_utils.py:131 | with a two-letter state, the key `city, ST` gives back its city and its state |
| CityData.CityStateKeyInjective | src/city_data_utils.py:131 | two cities share a key only when they share both city and state |
| CityData.GetTop100Cities | src/city_data_utils.py:127-137 | one row per city entry, in order, each keyed `city + ", " + state` |
| CityData.MatchingWeightsUnique | src/city_data_utils.py:156-158 | against distinct state keys, a state matches no weight row or exactly the one with its key |
| CityData.JoinCityOne | src/city_data_utils.py:156-158 | against distinct state keys, the merge gives each city exactly one row |
| CityData.LeftJoinOnePerCity | src/city_data_utils.py:156-158 | the left merge keeps one row per city in city order; each city inherits its state's `rpp` and `col_weight`, or none when its state has no row |
| CityData.GetCityColWeights | src/city_data_utils.py:144-159 | `get_city_col_weights`: every city in order, with its state's `rpp` and `min(rpp)/rpp`, or missing values for a state without a weight |
| CityData.SpendingRowFor | src/city_data_utils.py:314-322 | the share comes from the share table, or is 0.55 when the city is missing; the ratio equals the share; each part is within 0.5 of its exact product; the parts miss the total by at most 1 |
| CityData.FetchCitySpending | src/city_data_utils.py:313-324 | one spending row per key of the spending table, in order; no key is dropped |
| CityData.SplitCanMissTotal | src/city_data_utils.py:320-321 | a total of 1 at an even split rounds both parts to 0, so the parts need not add up to the total |
| CityData.StaticRows | src/city_data_utils.py:214-215 | one row per key of the table, in table order, with the value unchanged; the crime (378-379) and health (509-510) providers are this function too |
| CityData.StaticRowsOnePerKey | src/city_data_utils.py:214-215 | a provider over a dictionary repeats no city key |
| CityData.FetchCityEducationData | src/city_data_utils.py:450-451 | one row per key, in order; `bachelors_pct` is the pair's first component and `hs_grad_pct` its second |
| Numeric.RoundHalfEven | src/city_data_utils.py:320-321 | Python's `round`: within 0.5 of the input, and exact on integers |
| Numeric.RoundHalfEvenTie | src/city_data_utils.py:320-321 | on an exact half the result is the even neighbour |
| Numeric.RoundTenths | src/data_utils.py:536 | `round(x, 1)` is within 0.05 of `x` |
| Numeric.ParseNatToString | src/data_utils.py:69 | the numeric coercion reads a decimal integer, with or without a minus sign, as that number |
| Text.StripEmptyIffAllSpace | scripts/generate_html.py:47 | a line strips to nothing iff it is all whitespace |
| Text.TrimLeftSpec | src/data_utils.py:318 | the left trim cuts off only whitespace, and leaves no whitespace at the front |
| Text.TrimRightSpec | src/data_utils.py:318 | the right trim cuts off only whitespace, and leaves no whitespace at the back |
| Text.StripSlice | src/data_utils.py:318 | `str.strip()` keeps one slice of the text, with only whitespace cut off before and after it |
| Text.StripEnds | src/data_utils.py:318 | what `str.strip()` keeps has no whitespace at either end |
| Text.StripSpec | src/data_utils.py:318 | both of the above: a slice with only whitespace cut off, and no whitespace at its ends |
| Text.ReplaceCharAt | scripts/generate_html.py:124 | replacing one character by another keeps the length and swaps exactly the matching positions |
| Text.ReplaceDropsSuffix | scripts/generate_html.py:124 | removing a suffix whose first character (the dot of ".ipynb") is not in the stem gives back the stem |
| Text.TitleFromAt | scripts/generate_html.py:124 | `str.title()` upper-cases each character that follows an uncased one and lower-cases the rest, position by position |

## Left out

- HTTP, file and Excel reading are not modelled. This covers `download_file`, every `requests.get`, `pd.read_excel`, `pd.read_csv`, `json.loads` of a notebook and the existence test on a path. Their parsed results are parameters.
- Failed reads: only the HTTP and CSV providers catch a failed request or parse and fall back (`src/data_utils.py:362-386`, `452-473`, `516-540`, `585-599`); there a failure is `None`. A notebook that is missing is skipped, and `load(name) == None` means exactly that. A notebook that exists but is not valid JSON, or a spreadsheet that `pd.read_excel` cannot read, raises and aborts the run; the model starts from an already-parsed notebook or grid and does not capture that abort.
- `fetch_bea_personal_income` is not modelled. It is an API client with no fallback table.
- Random chart ids are left out: `uuid.uuid4().hex[:12]` is a caller-supplied token `ids(c, o)`.
- `json.dumps` is left out: it is a caller-supplied renderer `dumps`, so the exact JSON text is not modelled.
- The page's static template is not modelled. This covers the HTML head, the CSS, the page header and footer, the file write and all progress messages. Only the generated navigation and content strings are modelled.
- The embedded tables are not transcribed. This covers RPP, population, SSA, NAEP, FBI, CDC and the city tables. Each is an argument, and the properties hold for every table.
- IEEE-754 floating point is not modelled. Amounts, weights and rates are exact reals. Python's `round` is round-half-to-even on reals, so results at binary-representation boundaries are not modelled.
- `Numeric.ParseDecimal` models `pd.to_numeric` on text only for decimal notation: an optional sign, then digits with an optional fractional part. Exponents, `inf`, `nan`, thousands separators and surrounding whitespace are read as non-numeric.
- StateProviders.ScoreValue, StateProviders.ParseNaepResults and StateProviders.FetchNaepScores read a NAEP score with the same decimal-only `Numeric.ParseDecimal` (after stripping whitespace), while Python's `float()` in `fetch_naep_scores` (`src/data_utils.py:463-466`) also accepts exponents (`"1e2"`), `"nan"`, `"inf"`, `"infinity"` and underscores between digits (`"1_000"`). Such a score adds a live row in Python and none in the model, which can also change the 40-kept-rows test (`src/data_utils.py:471`). Exact reals have no NaN or infinity, so those forms are not modelled.
- Case-insensitive matching and title-casing use ASCII letters only. Unicode case mapping is not modelled.
- Sheet labels are simplified. A repeated column header is treated as naming no state, because pandas renames it with a suffix that no state name has. Numeric headers name no state. The category label is always taken from the first column.
- CSV column names are simplified. Column names are taken to be distinct even after `.strip()`, so the duplicate-header renaming of `pd.read_csv` is not modelled. Neither is the case of two headers that become equal once stripped (`"State"` and `"State "`): Python then selects both, the column assignment raises, and the provider falls back (`src/data_utils.py:372-378`), where the model takes the first match.
- Exceptions inside the live loops are not modelled individually. A result that is not a dictionary, or a `violent_crime` that is not a number, would make Python fall back to the embedded table. The model takes the live results as well-typed records.
- `StateProviders.GetColWeights` and `CityData.GetCityColWeights` require a non-empty RPP table with positive values. Python would raise on an empty or zero table, and the embedded table meets both.
- `CityData.GetCityColWeights` requires distinct state keys in the RPP table, as a dictionary's keys are. Duplicate keys would make the merge repeat cities.
- `Notebook.WithLayoutDefaults` is modelled on values. The source updates the figure's layout dictionary in place, and that mutation of the parsed notebook is not modelled, because the notebook is not read again.
- Notebook cells are simplified. A cell without `cell_type` raises `KeyError` in Python, and the model has no such cell. `display_data` and `execute_result` are one output kind, because the source treats them alike. An output missing `output_type` is an ignored output.
- Report.GenerateReport: states the joined navigation and content strings, not their place inside the full page template.
- The FBI rate is stated as within 0.05 of the exact rate, because the exact value of `round(rate, 1)` on floats is not modelled.
