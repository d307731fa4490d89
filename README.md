# Happiness dashboard: summary and trend pages in Dafny

This project models the data logic of two pages of a React dashboard about
the World Happiness Report.

The **summary page** (`Resumen`) shows three KPI cards and a donut of average
happiness per macro-region:

- a score is coloured by four thresholds (7.0, 6.0, 5.5, 4.5);
- the eleven API region labels are mapped onto six macro-regions named in
  Spanish (`REGION_MAPPING`); labels outside the table are dropped;
- the per-label scores are grouped per macro-region, averaged, and rounded to
  two decimals (`agruparYTraducir`), with the groups in the order the scan
  first meets them (`Object.keys` insertion order);
- a KPI shows `"-"` for a falsy field and the number with two decimals
  otherwise.

The **trend page** (`Graficas`) holds five pieces of state: selected year,
available years, line series, scatter series and a loading flag. It loads the
global evolution once, then loads the correlation scatter for the selected
year:

- the evolution payload gives the years sorted latest first, selects the
  latest year and builds the line series in payload order;
- a correlation load raises the loading flag, stores the array (or no
  dataset on failure or on a non-array) and clears the flag on every path;
- a correlation fetch is issued on a year change only when the year is truthy
  and some years are available;
- the scatter card shows a loading message, the chart, or a no-data message.

Modules:

- `Wrappers`: `Option`.
- `Rounding`: `Number(x.toFixed(2))` on exact reals.
- `ScoreColor`: `getColorByScore` and the donut colours.
- `RegionGrouping`: `REGION_MAPPING` and `agruparYTraducir`. The grouping is
  specified over the sequence of lookups `Regions(labels)`, that is
  `REGION_MAPPING[l]` for each label `l`. `Reaches(rs, g)` says some label
  maps to `g`. `CountOf`, `SumOf`, `Average` and `FirstReach` are the count,
  sum, plain average and first index of group `g`. `GroupOrder(labels)` is the
  list of group names in first-met order.
- `SummaryView`: KPI cards and the donut chart.
- `YearOrder`: the descending sort of the years.
- `TrendPage`: payload functions, the render condition, and the class
  `TrendView` holding the page state.

The two network fetches, their JSON parsing and React's scheduling are left
out. Each fetch result is a parameter of type `Fetched<T>`: either `Failed`, or
`Received` with a payload that is either `NotArray` or an `Array` of items.

Three facts about the trend page's code shape the model:

- The line series keeps the payload's order; it is not sorted by year
  (`src/pages/Graficas.jsx:70-74`). `TrendPage.EvolutionExample` shows this
  for the payload `[{2016, 5.4}, {2015, 5.2}]`: the labels are
  `["2016", "2015"]`.
- Nothing discards a stale correlation response. A response is applied
  whenever it arrives, so the last one to arrive wins.
- `handleYearChange` does no range check. The select offers only the
  available years, which `ChangeYear` takes as its precondition.

A usable evolution payload makes the page request the correlation of the
latest year twice. The direct call at the end of the evolution load issues
the first request (`request` of `TrendView.LoadEvolution`). The year-change
effect then runs again because the available years changed, and issues the
second (`TrendPage.EvolutionTriggersCorrelation`). `TrendPage.MountExample`
plays this sequence: both loads start before either response arrives.

## Model

| member | source | states |
|---|---|---|
| ScoreColor.ColorByScore | src/pages/Resumen.jsx:18-25 | the colour is one of the five palette entries; a score that does not parse (NaN) gets white |
| ScoreColor.ColorIsBand | src/pages/Resumen.jsx:20-24 | the colour of score v is the palette entry picked by how many of the thresholds 7.0, 6.0, 5.5, 4.5 v reaches, so the first threshold reached decides |
| ScoreColor.ColorMonotone | src/pages/Resumen.jsx:19-24 | a higher score never gets a lighter colour than a lower one, and a missing score never gets a darker colour than any score |
| ScoreColor.DonutColors | src/pages/Resumen.jsx:68 | one colour per average, each the classifier's colour for that average, in the same order |
| Rounding.Cents | src/pages/Resumen.jsx:48 | the nearest integer to 100·x, ties away from zero, with the sign of x |
| Rounding.Round2 | src/pages/Resumen.jsx:48 | the result is a whole number of hundredths within 0.005 of x |
| Rounding.Round2Idempotent | src/pages/Resumen.jsx:48 | rounding an already rounded value changes nothing |
| RegionGrouping.RegionOf | src/pages/Resumen.jsx:38 | no contract of its own: `REGION_MAPPING[label]`, absent for a label outside the table; `RegionNamed` and `MappingTargets` state what it returns |
| RegionGrouping.RegionNamed | src/pages/Resumen.jsx:27-33 | a mapped label goes to one of the six macro-regions, never to the fallback "Otros" |
| RegionGrouping.MacroRegionCount | src/pages/Resumen.jsx:27-33 | the six macro-region names are pairwise distinct |
| RegionGrouping.MappingTargets | src/pages/Resumen.jsx:27-33 | the table's targets are exactly the six macro-regions |
| RegionGrouping.TranslatedMembers | src/pages/Resumen.jsx:37-39 | a macro-region is in the scan's stream exactly when some label maps to it |
| RegionGrouping.FirstOccurrences | src/pages/Resumen.jsx:41-45 | inserting keys into an object: no repeats, the same members, never longer than the input |
| RegionGrouping.CountOf | src/pages/Resumen.jsx:43 | a group's count is positive exactly when some label maps to it |
| RegionGrouping.SumOf | src/pages/Resumen.jsx:42 | a group that no label maps to has sum 0 |
| RegionGrouping.FirstReach | src/pages/Resumen.jsx:37-41 | the index where the scan first meets group g: its label maps to g and no earlier one does |
| RegionGrouping.GroupMembers | src/pages/Resumen.jsx:35-45 | a name is output exactly when some input label maps to it (both directions) |
| RegionGrouping.GroupOrderBounds | src/pages/Resumen.jsx:45 | the output names are distinct macro-regions: at most six, and no more than the input labels |
| RegionGrouping.GroupsFollowScan | src/pages/Resumen.jsx:37-45 | names come out in the order the scan first meets them |
| RegionGrouping.UnmappedSkipped | src/pages/Resumen.jsx:38-39 | dropping a lookup that found nothing leaves the stream of macro-regions unchanged |
| RegionGrouping.UnmappedUncounted | src/pages/Resumen.jsx:38-39 | dropping a lookup that found nothing leaves every count unchanged |
| RegionGrouping.UnmappedUnsummed | src/pages/Resumen.jsx:38-40 | dropping a lookup that found nothing, with its value, leaves every sum unchanged |
| RegionGrouping.UnmappedLabelIgnored | src/pages/Resumen.jsx:38-39 | removing a label outside the table changes neither the group names nor any count or sum |
| RegionGrouping.AverageBetween | src/pages/Resumen.jsx:46-47 | a group's average lies between the least and greatest values of the labels mapped to it |
| RegionGrouping.AddTo | src/pages/Resumen.jsx:41-43 | the keys gain `g` and nothing else; `g`'s tally becomes the old one plus the value and one, or (value, 1) when `g` is new; every other tally is unchanged |
| RegionGrouping.TallyMapped | src/pages/Resumen.jsx:40-43 | a mapped label adds its value and one to its group's tally, creating the tally at zero if it is new, and the tallies stay exact |
| RegionGrouping.TallySkipped | src/pages/Resumen.jsx:38-39 | an unmapped label leaves the tallies exact without changing them |
| RegionGrouping.AddLabel | src/pages/Resumen.jsx:38-43 | the callback for one label: a label outside the table changes nothing; otherwise its value and one are added to its group's tally, and a group met for the first time becomes the last key |
| RegionGrouping.ScanLabel | src/pages/Resumen.jsx:37-44 | after the callback for label i, the key order and the tallies are exactly those of the first i+1 labels |
| RegionGrouping.TallyGroups | src/pages/Resumen.jsx:36-44 | after the scan: the keys are the group names in first-met order, each with the exact sum and count of its labels |
| RegionGrouping.GroupAndTranslate | src/pages/Resumen.jsx:35-51 | the group names in first-met order, each paired with its average rounded to two decimals; empty input gives empty output |
| SummaryView.FormatKpi | src/pages/Resumen.jsx:60 | "-" exactly when the field is falsy (missing, null or 0); otherwise the value rounded to two decimals |
| SummaryView.PlaceholdersIffFalsy | src/pages/Resumen.jsx:59-63 | the cards equal their initial state (three "-" placeholders, line 14) exactly when no field of the payload is truthy |
| SummaryView.InitialKpis | src/pages/Resumen.jsx:14 | no contract: a constant, the three "-" placeholders; `PlaceholdersIffFalsy` relates it to the payload |
| SummaryView.SummaryKpis | src/pages/Resumen.jsx:59-63 | each card is formatted from its own field alone: "-" exactly when that field is falsy, otherwise that field rounded to two decimals, whatever the other fields hold |
| SummaryView.BuildDonut | src/pages/Resumen.jsx:65-77 | the donut's labels are the group names, its data their rounded averages, its colours the classifier's colour of each datum, at most six slices |
| YearOrder.InsertDescending | src/pages/Graficas.jsx:63 | inserting into a descending list keeps it descending and adds exactly the new element |
| YearOrder.SortDescending | src/pages/Graficas.jsx:63 | `sort((a, b) => b - a)`: a descending permutation of the input |
| YearOrder.SortedHeadIsMax | src/pages/Graficas.jsx:63-66 | the first sorted year is an input year and no input year is later |
| YearOrder.SameHead | src/pages/Graficas.jsx:63 | two descending orderings of the same years start with the same year |
| YearOrder.DescendingPermutationUnique | src/pages/Graficas.jsx:63 | any descending permutation of the years equals the sorted list, so the result does not depend on the sorting algorithm |
| TrendPage.YearText | src/pages/Graficas.jsx:71 | no contract of its own: `year.toString()`; `YearTextDecimal` states what it returns |
| TrendPage.YearTextDecimal | src/pages/Graficas.jsx:71 | the text is the decimal numeral of the year: a leading minus exactly for a negative year, then digits with no leading zero that denote the year's magnitude |
| TrendPage.DigitsNumeral | src/pages/Graficas.jsx:71 | the digits of a natural number: non-empty, digits only, no leading zero, denoting the number |
| TrendPage.YearsOf | src/pages/Graficas.jsx:63 | `data.map(item => item.year)`: one year per row, in row order |
| TrendPage.LineFor | src/pages/Graficas.jsx:70-74 | one label and one score per payload row |
| TrendPage.LineFollowsRows | src/pages/Graficas.jsx:70-74 | point i of the line is row i of the payload: its year as text and its score |
| TrendPage.UsableEvolution | src/pages/Graficas.jsx:57 | no contract: the guard, a received array with at least one row; `TrendView.LoadEvolution` uses it |
| TrendPage.ScatterFor | src/pages/Graficas.jsx:26-44 | the array becomes the single dataset; a failed fetch or a non-array gives no dataset |
| TrendPage.CorrelationRequest | src/pages/Graficas.jsx:93-97 | a fetch for the selected year is issued exactly when the year is not 0 and some years are available |
| TrendPage.Panel | src/pages/Graficas.jsx:320-327 | loading message exactly while loading; the chart exactly when not loading and the first dataset has a point |
| TrendPage.FinishedLoadShowsChart | src/pages/Graficas.jsx:26-46 | after a load finishes, the chart shows exactly when the response was a non-empty array, and never the loading message |
| TrendPage.EvolutionSelectsLatest | src/pages/Graficas.jsx:63-67 | the selected year is one of the rows' years and no row has a later one |
| TrendPage.EvolutionTriggersCorrelation | src/pages/Graficas.jsx:93-97 | when no row's year is 0, the effect after a usable payload requests the latest year |
| TrendPage.EvolutionExample | src/pages/Graficas.jsx:63-74 | for rows 2016 then 2015, the selector lists 2016 first and the line keeps labels "2016", "2015" in payload order |
| TrendPage.MountExample | src/pages/Graficas.jsx:82-97 | no contract: its assertions check the mount sequence for the payload 2016, 2015: 2016 selected and requested by the direct call and again by the effect, the card loading while both fetches run, then no data after a non-array response, then the chart after a one-point array |
| TrendPage.TrendView.constructor | src/pages/Graficas.jsx:13-17 | selected year 2024, no years, no line, no scatter, not loading |
| TrendPage.TrendView.LoadEvolution | src/pages/Graficas.jsx:52-82 | a failed fetch, a non-array or an empty array changes nothing and issues no request; otherwise years sorted latest first, the latest selected, the line built in payload order, a request for that year; scatter and loading flag untouched; the state invariant is kept |
| TrendPage.TrendView.BeginCorrelationLoad | src/pages/Graficas.jsx:21 | the loading flag is raised and nothing else changes |
| TrendPage.TrendView.FinishCorrelationLoad | src/pages/Graficas.jsx:26-47 | the scatter data is set from the response on every path and the loading flag is cleared |
| TrendPage.TrendView.ChangeYear | src/pages/Graficas.jsx:216 | the selected year becomes the chosen option and the state invariant is kept |
| TrendPage.TrendView.ScatterView | src/pages/Graficas.jsx:320-327 | the card in the current state: the loading message exactly while loading; the chart exactly when not loading and the stored first dataset has a point |
| TrendPage.TrendView.YearEffect | src/pages/Graficas.jsx:93-97 | the request issued is `CorrelationRequest` of the current state |

## Left out

- The HTTP fetches, JSON parsing, `console` logging and the `try`/`catch`
  around them. A fetch result is a parameter: `Failed` stands for a thrown
  fetch or parse error, `NotArray` for a payload of the wrong shape.
- React's scheduling: effects, dependency arrays, re-renders and overlapping
  in-flight requests. The effects are explicit calls on `TrendView`. The
  order of the calls is the caller's choice; `TrendPage.MountExample` uses
  one order the page can produce.
- The map-data fetch and the `Mapa` component on the summary page. The page
  only passes that payload through.
- Chart.js options and styling, including font sizes chosen from
  `window.innerWidth`, and all JSX markup other than the scatter card's
  render condition.
- The year slider of the summary page (`setYear(e.target.value)` keeps a
  string) and the `parseInt` in `handleYearChange`. `ChangeYear` takes an
  already parsed year from the available years.
- Rounding.Round2: models `toFixed(2)` on exact reals. It does not model
  binary floating point, where a decimal such as 1.005 is stored slightly
  below its value and rounds down.
- RegionGrouping.GroupAndTranslate: requires at least as many values as
  labels. With fewer values, JavaScript would add `undefined` and produce
  `NaN` averages; that case is not modelled.
- RegionGrouping.RegionOf: the lookup covers exactly the eleven table keys. It
  does not model JavaScript prototype keys such as `"constructor"`, which an
  object lookup would also find.
- SummaryView.FormatKpi: a field is missing, `null` or a number. Strings and
  other JSON values, and `NaN` after `Number(...)`, are not modelled.
- TrendPage.YearsOf: years are integers. A non-numeric `year` field and the
  comparator's behaviour on it are not modelled.
- Sidebar, layout and routing components lie outside the two pages modelled
  here.
