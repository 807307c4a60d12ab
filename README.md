# Recipe dashboard: comparison panels, run log, profile form and shell

This project models the sequential logic of a React dashboard for semiconductor
process recipes. Rendering is not modelled. The model covers:

- **The Optimizer panel.** Two recipe selects and the "can optimize" guard. A trends
  chart of each recipe's `optimized_value` series, labelled `T1..Tn`. Contribution pies,
  whose labels capitalise the factor name and turn its first underscore into a space. The
  narrative's choice of the better recipe. Two collapsible cards, of which at most one is
  open.
- **The RCA panel.** Two recipe selects. Changing either one hides the comparison until
  Compare is pressed again. The Compare action, which also auto-selects the first metric. A
  metric chart. The lookup of a stored analysis text under `A_vs_B`, then `B_vs_A`, then a
  fixed fallback. The same pair of exclusive cards.
- **The run-log table.** A case-insensitive search over every field of a row. A stable
  ascending or descending sort of a copy by the clicked column. The header click that picks
  the sort key and direction. The `ET` Yes/No cell.
- **The profile form.** A saved record and a working copy, with the Edit, Save, Cancel
  and field-change events.
- **The shell.** The active menu, and a sidebar that collapses on a desktop-width window
  but opens as an overlay on a mobile-width one.

Pure derivations are Dafny functions over datatypes, with lemmas about them. Each panel's
state is a class whose methods say their new state outright. Where a state machine has
invariants, its transitions are also functions on a datatype (`Sections`, `Profile.Form`,
`Shell.Shell`). The class methods are proved equal to those functions, and the invariants
are lemmas about the functions.

Modules: `Wrappers` (Option), `Text`, `Dataset`, `Series`, `Sections`, `Optimizer`, `Rca`,
`Cells`, `RunLog`, `Profile`, `Shell`.

The model follows the code in four places where a reader might expect otherwise:

- On equal averages the Optimizer reports recipe2 as the better recipe, not the first
  label.
- The chart hands both series to the chart as they are. It does not pad them.
- A factor label replaces only the first underscore, because `String.prototype.replace`
  with a string pattern replaces one occurrence.
- The Optimizer's chart guard only checks that both ids are non-empty. It is built for two
  equal ids too.

## Model

| member | source | states |
|---|---|---|
| `Text.Lower` | src/components/panels/PreviousRuns.js:31 | lower-casing keeps the length; each capital A-Z becomes the same letter in lower case and every other character is unchanged |
| `Text.ReplaceFirstAt` | src/components/panels/Optimizer.js:62 | `replace('_', ' ')` changes exactly the first occurrence, and nothing when there is none |
| `Text.ContainsAt` | src/components/panels/PreviousRuns.js:31 | `includes` holds iff the term occurs at some index |
| `Text.Decimal` | src/components/panels/Optimizer.js:150 | a non-empty string of digits, with no leading zero except for the number 0 itself |
| `Text.DecimalRoundTrip` | src/components/panels/Optimizer.js:150 | the decimal text in a time label reads back as its number |
| `Text.DecimalInjective` | src/components/panels/Optimizer.js:150 | different numbers give different decimal texts |
| `Dataset.Keys` | src/components/panels/RCAAnalysis.js:54 | `Object.keys` lists one key per metadata entry, in the order the model stores the entries |
| `Dataset.Get` | src/components/panels/RCAAnalysis.js:67 | a key has a value iff it is among the object's keys, and that value is the one stored in the first entry with the key |
| `Dataset.SeriesOf` | src/components/panels/Optimizer.js:147-148 | a stored `timeseries` under the metric is returned as it is; a missing recipe, metric or series gives the empty series |
| `Dataset.ContributionOf` | src/components/panels/Optimizer.js:56-60 | present iff the recipe has metadata whose `optimization_contribution` entry is a factor table, and then it is that table |
| `Series.TimeLabel` | src/components/panels/Optimizer.js:150 | the label of index i is `T` followed by the decimal digits of i + 1, with no leading zero |
| `Series.TimeLabels` | src/components/panels/Optimizer.js:150 | n labels, the i-th being `T(i+1)` |
| `Series.TimeLabelsDistinct` | src/components/panels/Optimizer.js:150 | no two time points share a label |
| `Series.TwoSeriesChart` | src/components/panels/Optimizer.js:150-168 | label count is the longer series' length; both series are passed through untruncated and unpadded |
| `Sections.ClickFirst` | src/components/panels/Optimizer.js:289-298 | opening the first card collapses the second; closing it touches nothing else; never both open |
| `Sections.ClickSecond` | src/components/panels/Optimizer.js:319-328 | opening the second card collapses the first; closing it touches nothing else; never both open |
| `Sections.RunStaysExclusive` | src/components/panels/Optimizer.js:34-35 | from the initial state (trends open, analysis collapsed) no sequence of header clicks opens both cards |
| `Sections.ReopenFirst` | src/components/panels/Optimizer.js:289-298 | closing and reopening the open card restores the state |
| `Optimizer.CanOptimize` | src/components/panels/Optimizer.js:53 | holds iff the two selects hold two different non-empty ids |
| `Optimizer.FactorLabel` | src/components/panels/Optimizer.js:61-63 | a factor label keeps the key's length and upper-cases its first character |
| `Optimizer.FactorLabelSpaces` | src/components/panels/Optimizer.js:62 | after the first character, only the first underscore becomes a space |
| `Optimizer.PieChartData` | src/components/panels/Optimizer.js:55-91 | null for an empty id or no contribution table; otherwise labels and values follow the factors' key order with equal length, values unchanged, and min(4, n) colours |
| `Optimizer.TrendsChart` | src/components/panels/Optimizer.js:144-179 | null iff an id is empty (equal ids still chart); the two `optimized_value` series with max-length labels; the i-th label is `T(i+1)` |
| `Optimizer.Average` | src/components/panels/Optimizer.js:121-122 | an empty series has no average (NaN); otherwise the average times the length is the sum |
| `Optimizer.Exceeds` | src/components/panels/Optimizer.js:124 | `>` on averages is false when either is NaN, and true only for different values |
| `Optimizer.OptimizationAnalysis` | src/components/panels/Optimizer.js:115-136 | no narrative iff the guard of line 53 fails; recipe1 is reported better iff both averages exist and its average is strictly greater; the other recipe is the one to improve |
| `Optimizer.TieReportsSecond` | src/components/panels/Optimizer.js:124 | a tie or an empty series reports recipe2 |
| `Optimizer.RecipeOneWinsIffGreater` | src/components/panels/Optimizer.js:121-124 | with two non-empty series, recipe1 is reported better exactly when its mean is strictly greater than recipe2's |
| `Optimizer.BetterIsOrderFree` | src/components/panels/Optimizer.js:124 | with different averages, swapping the selects reports the same better recipe |
| `Optimizer.OptimizerPanel.constructor` | src/components/panels/Optimizer.js:30-35 | empty dataset, loading, no selection, trends open and analysis collapsed |
| `Optimizer.OptimizerPanel.LoadFinished` | src/components/panels/Optimizer.js:37-51 | loading ends; the fetched document replaces the data, and a failed fetch keeps the empty dataset |
| `Optimizer.OptimizerPanel.SelectRecipe1` | src/components/panels/Optimizer.js:252-263 | sets recipe1 and nothing else |
| `Optimizer.OptimizerPanel.SelectRecipe2` | src/components/panels/Optimizer.js:267-278 | sets recipe2 (recipe1's option disabled) and nothing else |
| `Optimizer.OptimizerPanel.ClickTrendsHeader` | src/components/panels/Optimizer.js:289-298 | the cards move as `ClickFirst`; the cards stay exclusive |
| `Optimizer.OptimizerPanel.ClickAnalysisHeader` | src/components/panels/Optimizer.js:319-328 | the cards move as `ClickSecond`; the cards stay exclusive |
| `Rca.CanCompare` | src/components/panels/RCAAnalysis.js:52 | holds iff the two selects hold two different non-empty ids |
| `Rca.AvailableMetadata` | src/components/panels/RCAAnalysis.js:53-55 | recipe1's metadata keys when both ids are set and both have metadata; empty otherwise |
| `Rca.HasText` | src/components/panels/RCAAnalysis.js:61 | a stored text is falsy for `||` exactly when it is missing or the empty string |
| `Rca.AnalysisText` | src/components/panels/RCAAnalysis.js:57-62 | empty iff an id is empty; anything other than the fallback is the non-empty text stored under `A_vs_B` or under `B_vs_A` |
| `Rca.AnalysisLookupOrder` | src/components/panels/RCAAnalysis.js:59-61 | `A_vs_B` wins, then `B_vs_A`, then the fallback; empty texts fall through |
| `Rca.AnalysisSwap` | src/components/panels/RCAAnalysis.js:59-61 | swapping the selects gives the same text when at most one order has a non-empty text |
| `Rca.MetricChart` | src/components/panels/RCAAnalysis.js:64-97 | null unless metric and both ids are set; the metric's series (empty when missing) with max-length labels; the i-th label is `T(i+1)` |
| `Rca.RcaPanel.constructor` | src/components/panels/RCAAnalysis.js:26-34 | empty dataset, loading, nothing selected, comparison hidden, chart open and analysis collapsed |
| `Rca.RcaPanel.LoadFinished` | src/components/panels/RCAAnalysis.js:36-50 | loading ends; the fetched document replaces the data, and a failed fetch keeps the empty dataset |
| `Rca.RcaPanel.SelectRecipe1` | src/components/panels/RCAAnalysis.js:161-164 | sets recipe1 and hides the comparison |
| `Rca.RcaPanel.SelectRecipe2` | src/components/panels/RCAAnalysis.js:179-182 | sets recipe2 and hides the comparison |
| `Rca.RcaPanel.Compare` | src/components/panels/RCAAnalysis.js:194-203 | offered only when the pair can be compared; shows the comparison; picks the first available metric only if none is selected; the invariant "shown implies comparable" holds |
| `Rca.RcaPanel.SelectMetadata` | src/components/panels/RCAAnalysis.js:239-249 | sets the metric and nothing else |
| `Rca.RcaPanel.EditComments` | src/components/panels/RCAAnalysis.js:296-302 | sets the comments and nothing else |
| `Rca.RcaPanel.ClickChartHeader` | src/components/panels/RCAAnalysis.js:217-226 | the cards move as `ClickFirst`; the cards stay exclusive |
| `Rca.RcaPanel.ClickAnalysisHeader` | src/components/panels/RCAAnalysis.js:265-275 | the cards move as `ClickSecond`; the cards stay exclusive |
| `Cells.Show` | src/components/panels/PreviousRuns.js:31 | `toString` gives a string itself, a number's printed text, and `true` or `false` for a boolean |
| `Cells.Below` | src/components/panels/PreviousRuns.js:43-46 | a missing value sorts before every present one; kinds are ranked; numbers compare by value and `false` sorts before `true` |
| `Cells.Truthy` | src/components/panels/PreviousRuns.js:78 | falsy exactly for a missing value, `false`, the empty string and zero |
| `Cells.IsFraction` | src/components/panels/PreviousRuns.js:80 | a fraction is a number strictly between two consecutive integers |
| `Cells.StrBelowAsymmetric` | src/components/panels/PreviousRuns.js:43-48 | string `<` is asymmetric |
| `Cells.StrBelowNegTransitive` | src/components/panels/PreviousRuns.js:43-48 | string `<` is negatively transitive |
| `Cells.BelowAsymmetric` | src/components/panels/PreviousRuns.js:43-48 | the cell order is asymmetric |
| `Cells.BelowNegTransitive` | src/components/panels/PreviousRuns.js:43-48 | the cell order is a strict weak order, so the comparator is consistent |
| `RunLog.RowMatches` | src/components/panels/PreviousRuns.js:30-32 | with an empty term every row with at least one field matches |
| `RunLog.Select` | src/components/panels/PreviousRuns.js:29-33 | the filter keeps only matching rows and never grows the list |
| `RunLog.SelectIsMatchingSubsequence` | src/components/panels/PreviousRuns.js:29-33 | the filter keeps exactly the rows with a field containing the term (case-insensitively), in their original order |
| `RunLog.Filtered` | src/components/panels/PreviousRuns.js:26-34 | an empty term returns the rows unchanged; otherwise the filter |
| `RunLog.SortBy` | src/components/panels/PreviousRuns.js:39-50 | sorting a copy keeps every row, as a permutation of the same length |
| `RunLog.SortByCorrect` | src/components/panels/PreviousRuns.js:39-50 | the sort is a permutation, and ordered by the comparator |
| `RunLog.SortByStable` | src/components/panels/PreviousRuns.js:39-50 | rows that compare equal keep their relative order |
| `RunLog.SortedData` | src/components/panels/PreviousRuns.js:36-51 | no key (or an empty one) gives the filtered list itself; otherwise a permutation, non-decreasing by the key for `asc` and non-increasing for `desc`, stable |
| `RunLog.ShownCountBounded` | src/components/panels/PreviousRuns.js:120 | the shown count never exceeds the total |
| `RunLog.FindColumn` | src/components/panels/PreviousRuns.js:54 | the column found is the first one with that key; none is found only if no column has it |
| `RunLog.NextSort` | src/components/panels/PreviousRuns.js:53-62 | unknown or unsortable column: unchanged; otherwise that key, `desc` iff it was that key with `asc` |
| `RunLog.SecondClickFlips` | src/components/panels/PreviousRuns.js:57-61 | clicking the same sortable header again flips the direction |
| `RunLog.FormatCellValue` | src/components/panels/PreviousRuns.js:76-84 | `ET` shows Yes for a truthy value and No otherwise; a non-number or an integer is passed through unchanged |
| `RunLog.RunLogPanel.constructor` | src/components/panels/PreviousRuns.js:5-8 | empty table, loading, empty search, no sort key with `asc` |
| `RunLog.RunLogPanel.LoadFinished` | src/components/panels/PreviousRuns.js:10-24 | loading ends; the fetched table replaces the data, and a failed fetch keeps the empty table |
| `RunLog.RunLogPanel.SetSearchTerm` | src/components/panels/PreviousRuns.js:110-116 | sets the term and nothing else; the rows on screen are the filtered rows in some order, never more than the table holds, and all rows for an empty term |
| `RunLog.RunLogPanel.HandleSort` | src/components/panels/PreviousRuns.js:53-62 | the sort config moves as `NextSort`; nothing else changes; the rows on screen are the same rows, only reordered |
| `Profile.Editable` | src/components/panels/UserProfile.js:45-168 | a field accepts typing iff it is a profile field other than the read-only employee id, join date and manager |
| `Profile.Edit` | src/components/panels/UserProfile.js:23-26 | editing starts with the working copy set to the saved record; entering edit mode does not change what any field shows |
| `Profile.Save` | src/components/panels/UserProfile.js:28-31 | the working copy becomes the saved record and editing ends; what each field shows is unchanged |
| `Profile.Cancel` | src/components/panels/UserProfile.js:33-36 | editing ends with both records the saved one; each field shows what it showed when editing began |
| `Profile.InputChange` | src/components/panels/UserProfile.js:38-43 | only the named field of the working copy changes; the saved record and mode are untouched |
| `Profile.Displayed` | src/components/panels/UserProfile.js:46 | the working copy while editing, the saved record otherwise |
| `Profile.ChangesTouchOnlyCopy` | src/components/panels/UserProfile.js:38-43 | any run of field changes only updates the working copy |
| `Profile.EditSaveKeepsRecord` | src/components/panels/UserProfile.js:23-31 | Edit then Save without changes leaves the saved record as it was |
| `Profile.CancelDiscards` | src/components/panels/UserProfile.js:33-36 | after Edit and any changes, Cancel restores the working copy to the saved record, which is unchanged |
| `Profile.SaveCommits` | src/components/panels/UserProfile.js:28-31 | after Edit and changes, Save stores exactly the typed changes over the saved record |
| `Profile.EventsKeepWellFormed` | src/components/panels/UserProfile.js:59-68 | every event keeps all twelve fields in both records and the read-only fields at their initial values |
| `Profile.ProfileForm.constructor` | src/components/panels/UserProfile.js:5-21 | not editing; both records are the initial profile |
| `Profile.ProfileForm.HandleEdit` | src/components/panels/UserProfile.js:23-26 | editing starts; the working copy becomes the saved record |
| `Profile.ProfileForm.HandleSave` | src/components/panels/UserProfile.js:28-31 | the working copy becomes the saved record; editing ends |
| `Profile.ProfileForm.HandleCancel` | src/components/panels/UserProfile.js:33-36 | the working copy is reset to the saved record, which is unchanged; editing ends |
| `Profile.ProfileForm.HandleInputChange` | src/components/panels/UserProfile.js:38-43 | the working copy gets the new value for that field only |
| `Shell.CheckMobile` | src/App.js:14-19 | a narrow width sets mobile, un-collapses and closes the sidebar; a wide width only clears mobile |
| `Shell.MenuChange` | src/App.js:27-33 | sets the menu; closes the sidebar on mobile; leaves the sidebar flags alone on desktop |
| `Shell.Toggle` | src/App.js:35-41 | flips only `sidebarOpen` on mobile and only `sidebarCollapsed` on desktop |
| `Shell.OverlayShown` | src/App.js:46 | the overlay is shown only in mobile mode, and then the sidebar is never collapsed |
| `Shell.CloseOverlay` | src/App.js:46-50 | the overlay click closes the sidebar and hides the overlay |
| `Shell.ToggleTwice` | src/App.js:35-41 | toggling twice restores the state |
| `Shell.RunStaysConsistent` | src/App.js:14-41 | no sequence of events collapses the sidebar in mobile mode |
| `Shell.App.constructor` | src/App.js:7-10 | menu `previous-runs`, not collapsed, not mobile, sidebar closed |
| `Shell.App.CheckMobileAt` | src/App.js:14-22 | the state moves as `CheckMobile` |
| `Shell.App.HandleMenuChange` | src/App.js:27-33 | the state moves as `MenuChange` |
| `Shell.App.ToggleSidebar` | src/App.js:35-41 | the state moves as `Toggle` |
| `Shell.App.ClickOverlay` | src/App.js:46-50 | the state moves as `CloseOverlay` |

## Left out

- The `fetch` and JSON parsing in each panel's mount effect are asynchronous I/O. `LoadFinished` takes the parsed document, or None for a failed fetch.
- Floating point is not modelled. Averages are exact `real` arithmetic, and an empty series' NaN average is None, which compares false like NaN.
- The improvement percentage (a division by `Math.min` of the averages) and every `toFixed` rendering are left out. `FormatCellValue` returns a `FixedTwo` marker for a non-integer number.
- `Optimizer.OptimizationAnalysis`: does not build the narrative text. It returns the recipe names the template interpolates: the better one, the one to improve and the steadier one. The rest of the template is fixed text plus formatted floats.
- Chart.js options, colours other than the pie slice count, the `ChartJS.register` calls, icons (including `getSortIcon`) and all JSX are presentation only.
- Case mapping covers ASCII letters only. `toLowerCase` and `toUpperCase` also map other Unicode letters, and can change a string's length.
- `Number.prototype.toString` is not computed. A number cell carries its printed text next to its value.
- `RunLog.SortedData`: compares values of different kinds by a fixed rank (missing, boolean, number, string), not by JavaScript's loose `<`. Under loose `<`, `undefined` compares equal to everything and mixed kinds are coerced, which need not give a consistent order.
- The engine's sort algorithm is not modelled. The model's insertion sort is proved to be a permutation, ordered and stable, which is what ECMAScript 2019 and later require of `Array.prototype.sort`.
- `Dataset.Get`: with duplicate keys in a JSON object it takes the first entry, whereas `JSON.parse` keeps the last value. Documents with duplicate keys are not modelled.
- `Dataset.ContributionOf`: an `optimization_contribution` entry that is a series rather than a factor table counts as absent. The source would chart its `timeseries` key as a single slice.
- `null` metadata entries and `null` row values are not modelled. On a `null` row value the source's `toString` would throw.
- A fetched document that lacks `recipes`, `metadata` or `analysis`, or a run-log document that lacks `columns` or `data`, is not modelled. The model's documents always hold every member; the source would throw while rendering such a document.
- `Dataset.Keys`: lists the keys in the order the entries are stored. JavaScript's `Object.keys` lists integer-like keys such as `"2"` or `"10"` first, in ascending numeric order, and only then the other keys in insertion order. That order is not modelled, so for metadata with integer-like keys the first metric Compare auto-selects and the order of pie labels and values can differ.
- `Cells.StrBelow`: compares strings character by character. JavaScript's `<` compares UTF-16 code units, which orders characters outside the Basic Multilingual Plane differently.
- `Optimizer.FactorLabel`: treats the first character of the key as one character. JavaScript's `charAt(0)` takes one UTF-16 code unit, which splits a character outside the Basic Multilingual Plane.
- Registering and removing the `resize` listener is not modelled. `CheckMobileAt` models one `checkMobile` call at a given `window.innerWidth`.
- src/components/Sidebar.js, src/components/SEMICopilotLogo.js and src/components/MainContent.js are not part of this model. They render the menu and the title, and switch routes.
