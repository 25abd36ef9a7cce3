# zero_waste_road: the waste store and the statistics pipeline

This project models the logic of the zero_waste_road app, an app for logging
thrown-away food. The model has four parts:

- **The store** (`WasteStore`). An append-only list of `WasteEntry` records
  (id, date, category id, weight in kilograms, price per kilogram), with its
  two append operations. It also answers an inclusive date-range query and
  gives weight and cost totals over a range, optionally limited to one
  category. An entry's cost is `weightKg * pricePerKg`, and its category
  falls back to the first catalog category when its id is unknown.
- **The statistics screen** (`StatisticView` and `DonutChartView`). It
  groups the entries of a period by category id in a dictionary loop. It
  keeps the ids that name a catalog category and weigh more than zero, and
  sorts them heaviest first. Then it lays the slices out as contiguous arcs
  from -90 degrees around the full circle, and shows a segment's label only
  when its arc is wider than 12 degrees. The screen's two totals and its
  "No data" rule are modelled as well.
- **The add-entry form** (`AddWasteView`). It cleans a number text (spaces
  removed, commas turned into dots), checks whether the form is valid,
  converts grams to kilograms, and saves through `addEntry`.
- **Concrete scenarios.** These use the app's sixteen-category catalog and
  two entries of the preview data.

Modules: `Wrappers` (Option), `Catalog` (categories, first-match lookup, the
app's table), `Store`, `Statistics`, `AddWaste`, and `Scenarios`.

How the model represents the app:

- A `Double` is a `real`. A `Date` is a `real` number of seconds.
- A UUID is a `nat`. The operation that creates an entry takes it as the
  `freshId` argument.
- The library conversion `Double(_:)` is a function argument,
  `parse: string -> Option<real>`.
- The period bounds are arguments.
- The store is a class. Its `entries: seq<WasteEntry>` field is changed only
  by the append methods and the load at construction. A ghost log,
  `savedSnapshots`, records every list the save hook writes.
- The grouping step of `slices` is a loop over the entry list that fills a
  `map`. The filtering step is a loop over that map's keys. The dictionary's
  visiting order is modelled as an arbitrary choice (`:|`), so every proof
  about `Slices` holds for every visiting order.
- Each sum is a left fold, the way `reduce(0, +)` adds.

The central specification is `Statistics.IsSlicing`. A correct slice list
meets four conditions:

- It is non-increasing by value.
- No category id appears twice.
- Each slice names the catalog's first category with that id, and carries
  that category's positive weight in the period.
- Each catalog category with positive weight has a slice.

`Statistics.Slices` is proved to return such a list. The list is pinned down
up to the order of equal values, because the app leaves that order open.

Three facts about the code deserve mention, because an app like this could
be expected to behave otherwise:

- **No sign checks.** Nothing rejects a negative weight or price:
  `isFormValid` only asks that both texts parse, and `addEntry` stores what
  it gets. The model stores negative values too
  (`Scenarios.NegativeWeightIsCounted`).
- **No tie-break.** The code sorts with `sorted { $0.value > $1.value }`
  over a dictionary's unordered contents, so categories of equal weight come
  in no fixed order. The model only promises a non-increasing permutation.
- **Unknown categories are accepted.** An entry may carry a category id the
  catalog does not have. `WasteEntry.category` then falls back to the first
  catalog category, and the chart drops the id.

## Model

| member | source | states |
|---|---|---|
| Catalog.Lookup | zero_waste_road/StatisticView.swift:67 | `first(where: { $0.id == id })`: None exactly when no category carries the id; otherwise a category with that id that no earlier category's id matches |
| Catalog.LookupByPosition | zero_waste_road/StatisticView.swift:67 | in a catalog numbered by position from 1, exactly the ids 1 to the catalog's length resolve, each to the category at position id - 1 |
| Catalog.AllNumberedByPosition | zero_waste_road/WasteStore.swift:22 | the table `ProductCategory.all` that entries resolve against (lines 20-37 of ProductCategory.swift), modelled as `Catalog.All`, holds 16 categories whose ids are 1 to 16 in order, with the app's titles |
| Store.WasteEntry.CategoryIn | zero_waste_road/WasteStore.swift:21-23 | the result is always a catalog category; the first one with the entry's id when there is one, otherwise the catalog's first category |
| Store.WasteEntry.TotalPrice | zero_waste_road/WasteStore.swift:26-28 | definition only, no contract: `weightKg * pricePerKg`; what it adds to a total is stated by `Store.TotalPriceAppend` and `Statistics.PeriodTotalPriceCountsEveryEntry` |
| Store.InRange | zero_waste_road/WasteStore.swift:67 | definition only, no contract: `start <= date <= end`, inclusive at both ends; stated through `Store.EntriesInRange` |
| Store.Matches | zero_waste_road/WasteStore.swift:73 | definition only, no contract: no category given, or the same category id; stated through `Store.Selection` |
| Store.OfCategory | zero_waste_road/WasteStore.swift:73 | an entry is kept exactly when it is in the list and its category id is the given id; the result is no longer than the list |
| Store.SumWeight | zero_waste_road/WasteStore.swift:74-75 | definition only, no contract: the left fold of the weights; stated by `Store.SumWeightConcat` and `Store.TotalWeightKgAppend` |
| Store.SumPrice | zero_waste_road/WasteStore.swift:82-83 | definition only, no contract: the left fold of the costs; stated by `Store.SumPriceConcat` and `Store.TotalPriceAppend` |
| Store.EntriesInRange | zero_waste_road/WasteStore.swift:66-68 | an entry is in the result exactly when it is in the list and `start <= date <= end`; the result is no longer than the list and is empty when start > end |
| Store.EntriesInRangeConcat | zero_waste_road/WasteStore.swift:66-68 | the query distributes over concatenation, so it returns an order-preserving subsequence of the entries and never reorders or invents any |
| Store.EntriesInRangeCoveringAll | zero_waste_road/WasteStore.swift:66-68 | when every entry is in range the query returns the whole list unchanged |
| Store.Selection | zero_waste_road/WasteStore.swift:72-73 | an entry is selected exactly when it is in the list, in range, and either no category is given or its category id is the given category's id |
| Store.SelectionAppend | zero_waste_road/WasteStore.swift:72-73 | one more entry extends the selection by that entry exactly when it is in range and matches the category |
| Store.OfCategoryConcat | zero_waste_road/WasteStore.swift:73 | the category filter distributes over concatenation: it keeps each part's matching entries in order and adds nothing |
| Store.SumWeightConcat | zero_waste_road/WasteStore.swift:74-75 | the weight sum of two lists one after the other is the sum of their weight sums |
| Store.SumPriceConcat | zero_waste_road/WasteStore.swift:82-83 | the cost sum of two lists one after the other is the sum of their cost sums |
| Store.TotalWeightKg | zero_waste_road/WasteStore.swift:71-76 | the weight total is 0 when no entry is both in range and of the requested category |
| Store.TotalWeightKgAppend | zero_waste_road/WasteStore.swift:71-76 | the total of the empty list is 0, and an appended entry adds its weight exactly when it is in range and of the category (every entry when the category is nil); so the total is the sum of the selected weights in insertion order |
| Store.TotalPrice | zero_waste_road/WasteStore.swift:79-84 | the cost total is 0 when nothing is selected |
| Store.TotalPriceAppend | zero_waste_road/WasteStore.swift:79-84 | the cost total of the empty list is 0, and an appended entry adds `weightKg * pricePerKg` exactly when it is selected |
| Store.AppendFreshIdKeepsIdsUnique | zero_waste_road/WasteStore.swift:47-54 | appending an entry whose id is fresh keeps all entry ids pairwise different |
| Store.WasteStore.constructor | zero_waste_road/WasteStore.swift:38-40 | a new store holds the decoded stored list, or no entries when nothing decodes, and has saved nothing |
| Store.WasteStore.LoadFromDisk | zero_waste_road/WasteStore.swift:95-101 | the entries become the decoded list when decoding succeeded and stay as they were otherwise |
| Store.WasteStore.SaveToDisk | zero_waste_road/WasteStore.swift:88-93 | the whole current list is written once more; the entries do not change |
| Store.WasteStore.AddEntry | zero_waste_road/WasteStore.swift:43-56 | the list grows by exactly one entry at the end, carrying the fresh id, the date, the category's id and the weight and price as given (no sign check); earlier entries are unchanged; the new list is saved once |
| Store.WasteStore.AddEntryWithoutSaving | zero_waste_road/WasteStore.swift:59-61 | the list becomes the old list plus the given entry, and nothing is saved |
| Statistics.AbsentCategoryWeighsNothing | zero_waste_road/StatisticView.swift:62-63 | a category id that no entry carries has no entries and weighs 0 |
| Statistics.CategoryIDs | zero_waste_road/StatisticView.swift:60-64 | definition only, no contract: the set of ids that occur, the keys the grouping loop creates; stated by `Statistics.CategoryIDsConcat` and `Statistics.GroupByCategory` |
| Statistics.CategoryWeight | zero_waste_road/StatisticView.swift:60-64 | definition only, no contract: the summed weight of one id's entries, the value the grouping loop accumulates; stated by `Statistics.CategoryWeightAppend` and `Statistics.GroupByCategory` |
| Statistics.CategoryWeightAppend | zero_waste_road/StatisticView.swift:62-63 | one more entry adds its weight to its own category's weight and leaves every other category's weight unchanged |
| Statistics.CategoryIDsConcat | zero_waste_road/StatisticView.swift:60-64 | the ids occurring in two lists one after the other are exactly the ids occurring in either |
| Statistics.GroupStep | zero_waste_road/StatisticView.swift:63 | `dict[id, default: 0] += weightKg` turns a correct grouping of a list into a correct grouping of the list with that entry appended |
| Statistics.GroupByCategory | zero_waste_road/StatisticView.swift:60-64 | the dictionary's keys are exactly the category ids that occur, and each id maps to the summed weight of its entries |
| Statistics.KeepKnownPositive | zero_waste_road/StatisticView.swift:66-71 | whatever order the dictionary is visited in, every kept slice names the first catalog category with its id and carries that id's positive weight; no id is kept twice; every key that resolves and weighs more than 0 is kept |
| Statistics.AppendNewIdKeepsDistinct | zero_waste_road/StatisticView.swift:66-71 | appending a slice with an id not yet kept keeps the ids distinct and adds that id |
| Statistics.InsertByValue | zero_waste_road/StatisticView.swift:72 | insertion yields the old slices plus the new one, as a multiset |
| Statistics.ConsKeepsOrder | zero_waste_road/StatisticView.swift:72 | a slice at least as heavy as every other, put in front of a sorted list, keeps it sorted |
| Statistics.InsertByValueKeepsOrder | zero_waste_road/StatisticView.swift:72 | inserting into a list sorted by value keeps it non-increasing |
| Statistics.SortedByValue | zero_waste_road/StatisticView.swift:72 | `sorted { $0.value > $1.value }`: a permutation of the input (same multiset) in non-increasing order of value |
| Statistics.DistinctIdsOccurOnce | zero_waste_road/StatisticView.swift:66-72 | slices with distinct ids hold no slice twice |
| Statistics.PermutationKeepsSoundness | zero_waste_road/StatisticView.swift:72 | reordering sound slices leaves only sound slices |
| Statistics.PermutationKeepsDistinctIds | zero_waste_road/StatisticView.swift:72 | reordering sound slices with distinct ids keeps the ids distinct |
| Statistics.PermutationKeepsIds | zero_waste_road/StatisticView.swift:72 | a reordering names exactly the same category ids |
| Statistics.SortedKeptIsSlicing | zero_waste_road/StatisticView.swift:59-73 | sorting what the filter kept from a complete grouping gives a correct slice list (`IsSlicing`) |
| Statistics.Slices | zero_waste_road/StatisticView.swift:59-73 | the slices of a period are sorted non-increasingly, have distinct ids, name only catalog categories with positive in-range weight at exactly that weight, and miss none of them |
| Statistics.SliceValueIsCategoryTotal | zero_waste_road/StatisticView.swift:60-70 | every slice's value is positive and equals the store's `totalWeightKg` for the period limited to that slice's category |
| Statistics.NoPositiveWeightNoSlices | zero_waste_road/StatisticView.swift:66-69 | when no category weighs more than 0 in the period, the only correct slice list is empty |
| Statistics.SliceTotal | zero_waste_road/StatisticView.swift:75-77 | definition only, no contract: the left fold of the slice values, used by the screen and by `segments` (StatisticView.swift:240); stated by `Statistics.NoDataExactlyWhenNoSlices` and `Statistics.SliceTotalMatchesStoreTotal` |
| Statistics.NoDataExactlyWhenNoSlices | zero_waste_road/StatisticView.swift:161-167 | for positive slices the total is never negative, and it is <= 0 (the "No data" branch) exactly when there are no slices |
| Statistics.PeriodTotalPrice | zero_waste_road/StatisticView.swift:79-81 | the screen's cost total equals the store's `totalPrice` over the period with no category |
| Statistics.PeriodTotalPriceCountsEveryEntry | zero_waste_road/StatisticView.swift:79-81 | every in-range entry adds its cost to the screen's cost total, whatever its category id, including ids the chart drops |
| Statistics.SliceTotalIsWeightOfSliceIds | zero_waste_road/StatisticView.swift:75-77 | summing the slice values equals summing, in slice order, the weights of the slices' categories recomputed from the entries |
| Statistics.SliceTotalMatchesStoreTotal | zero_waste_road/StatisticView.swift:75-77 | the screen's weight total (sum of slice values) equals the store's weight total for the period when every in-range entry names a catalog category and weighs more than 0 |
| Statistics.LaidOutStep | zero_waste_road/StatisticView.swift:244-249 | appending the next slice's arc, starting where the last arc ended and spanning `value / total * 360`, keeps the layout contiguous and in slice order |
| Statistics.ShareStep | zero_waste_road/StatisticView.swift:245-249 | the running start angle after one more slice is -90 plus the longer prefix's share of 360 degrees |
| Statistics.LaidOutWhole | zero_waste_road/StatisticView.swift:243-251 | once every slice is laid out, the last arc ends at -90 + 360 = 270 degrees |
| Statistics.Segments | zero_waste_road/StatisticView.swift:238-252 | no segments when the slice total is <= 0; otherwise one segment per slice in slice order, the first starting at -90, each starting where the previous ended, each spanning `value / total * 360`, the last ending at 270 |
| Statistics.ShowsLabel | zero_waste_road/StatisticView.swift:275-278 | definition only, no contract: the span is strictly greater than 12 degrees; stated by `Statistics.LabelShownExactlyAboveOneThirtieth` |
| Statistics.LabelShownExactlyAboveOneThirtieth | zero_waste_road/StatisticView.swift:275-278 | a laid-out segment's label is drawn exactly when its slice is more than one thirtieth of the total (span > 12 degrees) |
| AddWaste.RemovingSpacesKeepsOthers | zero_waste_road/AddWasteView.swift:39 | removing spaces leaves no space, shortens the text by its number of spaces and keeps every other character as often as before |
| AddWaste.CommasToDotsKeepsOthers | zero_waste_road/AddWasteView.swift:40 | replacing commas leaves no comma, keeps the length, adds one dot per comma and keeps every other character as often as before |
| AddWaste.RemovingSpaces | zero_waste_road/AddWasteView.swift:39 | definition only, no contract: drops every space, front to back; stated by `AddWaste.RemovingSpacesKeepsOthers` and `AddWaste.RemovingSpacesConcat` |
| AddWaste.CommasToDots | zero_waste_road/AddWasteView.swift:40 | definition only, no contract: turns every comma into a dot, front to back; stated by `AddWaste.CommasToDotsKeepsOthers` and `AddWaste.CommasToDotsConcat` |
| AddWaste.Cleaned | zero_waste_road/AddWasteView.swift:38-40 | the cleaned text has no space and no comma, is shorter by the number of spaces, has one more dot per comma, and keeps every other character as often as before |
| AddWaste.RemovingSpacesConcat | zero_waste_road/AddWasteView.swift:39 | removing spaces distributes over concatenation |
| AddWaste.CommasToDotsConcat | zero_waste_road/AddWasteView.swift:40 | replacing commas distributes over concatenation |
| AddWaste.CleanedConcat | zero_waste_road/AddWasteView.swift:38-40 | cleaning distributes over concatenation, so the kept characters stay in their order |
| AddWaste.CleanedOneChar | zero_waste_road/AddWasteView.swift:38-40 | a single space cleans to nothing, a comma to a dot, any other character to itself |
| AddWaste.RemovingSpacesFixesSpaceless | zero_waste_road/AddWasteView.swift:39 | removing spaces from a text without spaces changes nothing |
| AddWaste.CommasToDotsFixesCommaless | zero_waste_road/AddWasteView.swift:40 | replacing commas in a text without commas changes nothing |
| AddWaste.CleanedIdempotent | zero_waste_road/AddWasteView.swift:38-40 | cleaning a cleaned text returns it unchanged |
| AddWaste.ParseLocalizedDouble | zero_waste_road/AddWasteView.swift:37-42 | definition only, no contract: `Double(_:)` (the argument `parse`) applied to the cleaned text; stated through `AddWaste.Cleaned` and `AddWaste.SaveRequest` |
| AddWaste.IsFormValid | zero_waste_road/AddWasteView.swift:23-29 | definition only, no contract: a category is chosen, both texts parse and neither is empty; its relation to the save guard is `AddWaste.FormValidityMatchesSave` |
| AddWaste.WeightKg | zero_waste_road/AddWasteView.swift:32-34 | the weight in kilograms times 1000 is the parsed grams; 0 when the text does not parse |
| AddWaste.SaveRequest | zero_waste_road/AddWasteView.swift:157-172 | no request exactly when no category is chosen or either text fails to parse; otherwise the chosen category, the grams divided by 1000 (equal to what the unused `weightKg` property computes) and the parsed price unchanged, with no sign check |
| AddWaste.FormValidityMatchesSave | zero_waste_road/AddWasteView.swift:23-29 | a valid form always gets past the save guard; and when the empty text does not parse, a form that gets past the guard is valid |
| AddWaste.Save | zero_waste_road/AddWasteView.swift:156-175 | when the guard fails the store is untouched; otherwise exactly one entry with the converted values is appended and the list is saved once |
| Scenarios.WeekTotals | zero_waste_road/WasteStore_mock.swift:38-39 | for 0.5 kg of vegetables at 2.0 and 0.25 kg of fruit at 4.0 within the week, the weight total is 0.75 and both cost totals are 2.0 |
| Scenarios.WeekVegetableWeight | zero_waste_road/WasteStore_mock.swift:38-39 | limited to vegetables, the same week weighs 0.5 kg |
| Scenarios.WeekCategoryWeights | zero_waste_road/WasteStore_mock.swift:38-39 | the week's per-category weights are 0.5 for vegetables, 0.25 for fruit and 0 for every other id |
| Scenarios.WeekSliceOrder | zero_waste_road/StatisticView.swift:59-73 | for any entries weighing 0.5 for id 2 and 0.25 for id 3, the only correct slice list is the id-2 slice followed by the id-3 slice |
| Scenarios.WeekChart | zero_waste_road/StatisticView.swift:59-73 | on the preview's week entries for vegetables and fruit, `slices` returns Vegetables 0.5 followed by Fruits 0.25 |
| Scenarios.EmptyPeriodHasNoSlices | zero_waste_road/StatisticView.swift:161-164 | a period without entries has no slices and a zero total, so "No data" is shown |
| Scenarios.NegativeWeightIsCounted | zero_waste_road/WasteStore.swift:71-76 | a stored correction of -0.7 kg is counted: the week's weight total becomes -0.2 |
| Scenarios.CorrectedChart | zero_waste_road/StatisticView.swift:66-69 | after that correction vegetables weigh -0.2 kg, so `slices` returns no slices |
| Scenarios.LabelThreshold | zero_waste_road/StatisticView.swift:278 | in the model's exact arithmetic, an arc of exactly 12 degrees gets no label and one of 12.01 degrees does |

## Left out

- Persistence: JSON encoding and `UserDefaults` are foreign APIs. The load is the `stored: Option<seq<WasteEntry>>` argument of the constructor, and a save is one more element of the ghost log `savedSnapshots`.
- Id generation: `UUID()` is the `freshId` argument, an arbitrary `nat`. Uniqueness holds only when the caller passes a fresh value (`Store.AppendFreshIdKeepsIdsUnique`).
- Clock and calendar: `Date()`, `dateRange` (week, month and year bounds from `Calendar`) and the mock's day offsets are left out. Range bounds are arguments, and the scenarios use fixed times in seconds.
- Number parsing: `Double(_:)` is the uninterpreted argument `parse`. Only `FormValidityMatchesSave`'s converse assumes something of it, namely that the empty text does not parse.
- Floating point: every `Double`, including the angle arithmetic, is an exact `real`. Rounding, NaN and infinities are not modelled.
- Label boundary: segment bounds pass through SwiftUI's `Angle`, which stores radians, so an arc of exactly 12 degrees can round to either side of 12 in the app. `Scenarios.LabelThreshold` and `Statistics.LabelShownExactlyAboveOneThirtieth` hold of the exact model only.
- Text: a `String` is modelled as `seq<char>`, searched one character at a time. Swift's `String` is a sequence of grapheme clusters searched by Foundation's `replacingOccurrences`, so the model does not cover combining characters next to a space or comma.
- Store.WasteStore.SaveToDisk: always logs a snapshot. The app writes nothing when `JSONEncoder` throws, which happens only for non-finite `Double`s, and those are not modelled.
- Drawing: the `cos`/`sin` label positions, `DonutSegment`'s path, colours, fonts and all SwiftUI layout are left out.
- `CategorySlice.id`: the slice's `UUID`, used by SwiftUI to tell segments apart, is left out. A slice is its category and value.
- Store.WasteStore.AddEntry: `private(set)` is not expressible. Dafny fields are writable from any module, so "only the add methods change `entries`" holds of this model's code, not as an access rule.
- `ObservableObject` and `@Published` change notification, and `dismiss()` after a save, are left out.
- The catalog's colours and asset names are left out. The table keeps ids, titles and short titles.
- The text of the period totals (`String(format: "%.1f")` and `"%.2f"`) is left out.
- The preview store's other fourteen entries are left out. The scenarios use two of its week entries.
