# fao_ada table reshaping, modelled in Dafny

This project models the table-reshaping core of the `fao_ada` analysis helpers for
FAO agricultural statistics. The input is a long-format table with one record per
(area, item, element, year) and a value. The model covers:

- **Zero-filling** (`add_zero_values`). The table is completed so that every distinct
  item code appears under every distinct element code. A missing combination gets a
  synthesized zero-valued line; an existing one keeps its first row.
- **Stacked-bar series alignment.** This is the value-building part of
  `plot_stacked_bar_single_area_single_element` and
  `plot_stacked_bar_single_area_single_item`:
  - the axis is the sorted distinct years of the filtered table;
  - each category gets one dense series on that axis, zero where it has no row;
  - each series is drawn on the elementwise sum of the series drawn before it (`bottom`).
- **Mapping builders** (`mappings.py`):
  - `get_mapping`: a dictionary over the unique rows of selected columns;
  - `get_area_mapping`: country code to name;
  - `get_country_groups`: group code to the set of member country codes;
  - `extract_element_to_item`: from each column of a wide table to the item codes
    that have values in it.

Modules:

- `Wrappers` holds `Option` and `Result`.
- `Unique` is first-appearance deduplication. It models pandas' `unique()` and
  `drop_duplicates()`, with `Distinct` and its order lemma.
- `Table` holds the record, the boolean masks (`Query`) and their two uses:
  - `df[mask]` as `Select`;
  - `df[mask].iloc[0]` as `FirstWhere`.
- `ZeroFill` is `add_zero_values`.
- `StackedBar` is the two stacked-bar functions. Both share the `Stack` / `DrawCategory`
  / `SeriesOf` loops, which the source writes out twice.
- `Mappings` is `mappings.py`. Python's `dict(pairs)` is `DictOf`, a left fold in which
  the last pair with a key wins; `DictOf` also states that every binding is one of the pairs.

The plotting code works by appending inside loops, so those parts are methods with loop
invariants:

- `AddZeroValues` and `SeriesOf` are proved to return exactly the specification functions
  `ZeroFilled` and `Series`.
- `Stack` establishes the predicate `Stacked`.
- The loop of `extract_element_to_item` (`IndexColumns`) keeps the predicate `Indexes` as
  its invariant. It picks pairs in an arbitrary order, so its result is not a function of
  its input; its `ensures` state what every such result satisfies.

The lemmas state what the source promises about those functions and predicates. `get_mapping`, `get_area_mapping` and
`get_country_groups` are expressions in the source, so they are modelled as functions.

Behaviour of the source worth noting:

- **Empty filtered table in the element variant.** The element variant unpacks
  `zip(*pairs)`. On an empty filtered table this raises instead of producing an empty
  chart, so `PlotStackedBarSingleAreaSingleElement` returns
  `Failure(NothingToUnpack)` there.
- **How `bottom` is computed.** `bottom` is recomputed at each category as
  `np.sum(below, axis=0)` over every series drawn so far. It is not a running sum
  updated in place. `ColumnSumsIsBelow` proves the two agree.
- **Where the zero line's names come from.** The element name and unit of a
  synthesized line come from the *first* row with that element code, not from just
  any row. Its item name likewise comes from the first row with that item code.
- **Category order in the item variant.** The item variant stacks in the caller's
  `elementcodes` order, including codes with no rows. It does not use the order in
  which categories first occur in the table.
- **List order in `extract_element_to_item`.** The lists come from iterating over a
  set, so their order is unspecified. `IndexColumns` picks pairs in an
  arbitrary order and promises nothing about the order of the lists.

## Model

| member | source | states |
|---|---|---|
| Unique.Distinct | src/fao_ada/plotting.py:41 | `unique()` has no duplicate and keeps exactly the values of its input |
| Unique.DistinctOrder | src/fao_ada/plotting.py:41-44 | the distinct values are listed in the order of their first occurrence |
| Unique.NoDupCardinality | src/fao_ada/plotting.py:82 | a duplicate-free sequence has as many positions as distinct values, which is what `nunique()` counts |
| Table.FirstWhere | src/fao_ada/plotting.py:42 | `.iloc[0]` of a mask gives the first row that passes; `None` means no row passes, which is the `len(...) == 0` guard of the callers (on an empty frame `.iloc[0]` itself raises) |
| Table.Select | src/fao_ada/plotting.py:80 | `df[mask]` has only rows of the table that pass the mask, and every passing row appears in it |
| Table.SelectAppend | src/fao_ada/plotting.py:80 | `df[mask]` keeps table order: filtering a concatenation is filtering each part, in turn |
| Table.SelectMultiplicity | src/fao_ada/plotting.py:80 | `df[mask]` holds each passing row exactly as often as the table does, and no failing row |
| Table.SelectKeepsFirst | src/fao_ada/plotting.py:91-95 | the first row of a filtered table that passes a second mask is the first row of the whole table that passes both |
| ZeroFill.LineFor | src/fao_ada/plotting.py:45-54 | the line for (i, e) carries item code i and element code e |
| ZeroFill.LineForSpec | src/fao_ada/plotting.py:42-54 | a present pair keeps its first row unchanged; only an absent pair is synthesized, with value 0, the element name and unit of the first row with that element, and the item name of the first row with that item |
| ZeroFill.MakeLine | src/fao_ada/plotting.py:45-54 | the inner loop body appends exactly the specified line for the pair |
| ZeroFill.AppendItemLines | src/fao_ada/plotting.py:42-55 | one pass of the outer loop appends the item's lines for every element code, in order, after what was there before |
| ZeroFill.AddZeroValues | src/fao_ada/plotting.py:39-56 | the loops build exactly the completed frame, with (#distinct item codes) × (#distinct element codes) lines |
| ZeroFill.ZeroFilled | src/fao_ada/plotting.py:39-56 | the completed frame: for each distinct item code, the line of each distinct element code (the `Grid` of `LineFor`); it has (#distinct item codes) × (#distinct element codes) lines |
| ZeroFill.ZeroFilledExactlyOnce | src/fao_ada/plotting.py:41-55 | every (item code, element code) pair of the table occurs exactly once in the result, and no other pair occurs |
| ZeroFill.ZeroFilledAt | src/fao_ada/plotting.py:41-55 | the result is item-major: line a·m + b (`Offset(a, m, b)`, proved equal to `a * m + b`) is the line of the a-th distinct item code and the b-th distinct element code, both in first-appearance order |
| StackedBar.SortedDistinct | src/fao_ada/plotting.py:90 | `sorted(df.year.unique())` is strictly ascending and holds exactly the years given |
| StackedBar.YearAxis | src/fao_ada/plotting.py:90 | `sorted(df.year.unique())` of the filtered table: strictly ascending, holding exactly its years; the same axis appears at line 127 |
| StackedBar.YearAxisSpec | src/fao_ada/plotting.py:82-90 | the axis is ascending, holds exactly the years of the filtered table, and has `nunique()` positions, one per bar slot |
| StackedBar.CellValue | src/fao_ada/plotting.py:91-95 | a year with no row for the category gives 0; otherwise it gives the first matching row's value times `factor` |
| StackedBar.Series | src/fao_ada/plotting.py:88-95 | a category's series has one entry per axis year |
| StackedBar.SeriesAt | src/fao_ada/plotting.py:90-95 | entry j of a series is the cell value of the category in year `axis[j]` |
| StackedBar.SeriesOf | src/fao_ada/plotting.py:88-95 | the year loop appends exactly the category's series |
| StackedBar.AbsentCategoryIsZero | src/fao_ada/plotting.py:124-132 | a category code with no rows still yields an all-zero series |
| StackedBar.ColumnSums | src/fao_ada/plotting.py:99 | `np.sum(below, axis=0)` is the per-position total over the series given |
| StackedBar.ColumnSumsIsBelow | src/fao_ada/plotting.py:97-102 | summing `below` afresh gives the same thing as the running total of the series drawn so far |
| StackedBar.BelowAt | src/fao_ada/plotting.py:97-102 | position j of the running total after k calls is the sum of those calls' heights at j |
| StackedBar.DrawCategory | src/fao_ada/plotting.py:88-105 | one category pass adds exactly one bar with the category's series and the right `bottom`, and grows `below` by that one series |
| StackedBar.Stack | src/fao_ada/plotting.py:84-105 | the category loop draws, for every code in order, its series on the offset of the series before it |
| StackedBar.StackedAt | src/fao_ada/plotting.py:97-102 | bar k has the series of category k; its `bottom` is `None` exactly for k = 0, and is otherwise the elementwise sum of series 0..k-1 |
| StackedBar.StackedTop | src/fao_ada/plotting.py:97-103 | a bar's offset plus its height is the cumulative sum of the series up to and including it |
| StackedBar.Codes | src/fao_ada/plotting.py:86 | `itemcodes` is the second component of each pair, in order |
| StackedBar.ItemCategories | src/fao_ada/plotting.py:86 | the `itemcodes` of `zip(*df[['item', 'itemcode']].drop_duplicates().values)`: entry k is the code of the k-th distinct (item, itemcode) pair |
| StackedBar.ItemCategoriesOrder | src/fao_ada/plotting.py:86 | the element variant draws one series per distinct (item, itemcode) pair, in the order of the pairs' first rows |
| StackedBar.ItemCategoriesCover | src/fao_ada/plotting.py:86-87 | the element variant's categories are exactly the item codes of the filtered table; there are none exactly when it is empty |
| StackedBar.PlotStackedBarSingleAreaSingleElement | src/fao_ada/plotting.py:80-102 | fails exactly when the filtered table is empty; otherwise the ticks are the year axis and the bars stack per-item series scaled by `factor` |
| StackedBar.PlotStackedBarSingleAreaSingleItem | src/fao_ada/plotting.py:117-139 | the ticks are the year axis and the bars stack unscaled per-element series in the caller's `elementcodes` order |
| Mappings.DictOf | mappings.py:11 | the keys of `dict(pairs)` are exactly the keys among the pairs, and every binding is one of the pairs |
| Mappings.DictOfLastWins | mappings.py:11 | a key is bound to the value of the last pair carrying it |
| Mappings.FirstBadRow | mappings.py:9-11 | finds nothing exactly when every row has the needed shape, and otherwise the first row that does not |
| Mappings.Entries | mappings.py:10 | with three columns each row (a, b, c) becomes the entry a: (b, c); otherwise it becomes (a, b) |
| Mappings.GetMapping | mappings.py:7-11 | `get_mapping`: a `Failure` naming a row that does not have the needed shape, or else `DictOf` of the rows' entries, with every row's key bound; specified further by GetMappingShape and GetMappingLastWins |
| Mappings.GetMappingShape | mappings.py:9-11 | `get_mapping` fails exactly when some row has the wrong shape, and the error names the first such row; otherwise the keys are exactly the rows' first cells |
| Mappings.GetMappingLastWins | mappings.py:10-11 | the last row with a key decides its entry: (b, c) with three columns, b otherwise |
| Mappings.GetAreaMapping | mappings.py:13-16 | `get_area_mapping`: `dict` over the distinct (code, name) rows; every binding is one of the rows; keys and names are given by GetAreaMappingKeys and GetAreaMappingName |
| Mappings.GetAreaMappingKeys | mappings.py:15-16 | the area mapping's keys are exactly the country codes of the rows |
| Mappings.GetAreaMappingName | mappings.py:15-16 | a code maps to the name of the last distinct (code, name) pair that `drop_duplicates` keeps for it |
| Mappings.GetCountryGroups | mappings.py:20-21 | the keys are exactly the group codes, and each group's set holds exactly the country codes of its rows |
| Mappings.RecordIndexes | mappings.py:28-30 | one loop step keeps the index invariant: the sentinel column is skipped, and each other column lists its item codes once each |
| Mappings.ColumnItemPairs | mappings.py:24-25 | the columns left by `unstack` and `dropna(how='all')`: a (column, itemcode) pair is present exactly when some row with that item code has a non-missing cell in that column |
| Mappings.IndexColumns | mappings.py:27-30 | the loop over the pair set: the sentinel is never a key, the keys are exactly the other columns of the pairs, and each list is non-empty, has no duplicates and holds exactly that column's item codes |
| Mappings.ExtractElementToItem | mappings.py:23-32 | the sentinel is never a key; every other column with values is a key; its list is non-empty, has no duplicates, and holds exactly the item codes with values in that column |

## Left out

- Rendering is left out because it is a call into plotting libraries. This covers:
  - the `ax.bar` calls themselves, modelled only as the emitted (values, bottom) pairs;
  - bar width, figure size, titles, labels, tick rotation and legend placement;
  - `plot_pie`, the line, map and slider plots, and HTML output.
- Legend labels of the stacked bars are left out, as rendering:
  - the element variant's `items`;
  - the item variant's element names. These are the `unique()` names of the filtered
    rows in row order, so they need not line up with the `elementcodes` order of the
    bars.
- The `groupby('item').mean()` of the pie path is left out, because it is
  floating-point aggregation downstream of `add_zero_values`.
- Values are mathematical reals. Float rounding and NaN are not modelled. The integer 0
  the source appends is the real 0.
- The completed frame is left before `reset_index`. The index column that pandas adds
  is not modelled.
- A synthesized line has no year. The NaN that pandas puts in that column, and in the
  area columns, is not modelled.
- CSV and file loading are left out. `get_column_unique_values` and `load_dataframe`
  are outside this model. Their results are inputs:
  - the rows of unique values for `get_mapping`;
  - the (countrycode, country) rows for `get_area_mapping`;
  - the (countrygroupcode, countrycode) rows for `get_country_groups`;
  - the wide rows for `extract_element_to_item`.
- In `extract_element_to_item`, the `set_index` / `unstack` / `dropna` step is reduced
  to one rule: a (column, itemcode) pair survives when some row has a non-missing cell
  for it. The MultiIndex and the error `unstack` raises on a duplicate index are not
  modelled.
- `get_country_groups` is modelled over given rows. pandas' `groupby` drops NaN group
  keys, and that is not modelled.
- `get_mapping` is modelled only by row shape. Columns missing from the input are
  outside this model, because they are detected inside `get_column_unique_values`.
- StackedBar.Stack: it takes the year axis as a parameter. Both plotting methods pass it
  `YearAxis` of the filtered table, as the source computes it.
- StackedBar.PlotStackedBarSingleAreaSingleItem: it uses the factor 1.0, because the
  source multiplies by nothing there.
- StackedBar.PlotStackedBarSingleAreaSingleElement: `factor` is a required parameter. The source's default `factor=1` is not modelled; a caller passes 1.0 for it.
- Python dictionaries keep their keys in first-insertion order. A Dafny `map` has no key order, so the key order of the results of `Mappings.GetMapping`, `Mappings.GetAreaMapping`, `Mappings.GetCountryGroups` and `Mappings.ExtractElementToItem` is not modelled.
