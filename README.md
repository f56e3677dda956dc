# Scrollytelling choreographer and treemap zoom, modelled in Dafny

The page tells a story about the cost of living of PhD students in British Columbia, and it has two scripts. `js/sections.js` builds `scrollVis`, a scroll-driven chart. It keeps a dense table of seventeen *enter functions*, one per narrative step, and a parallel table of *update functions*. When the reader scrolls to a step, `chart.activate(index)` runs the enter function of every step between the last activated step and the new one, in the direction of travel. It then records the new step. `chart.update(index, progress)` hands the in-step scroll progress to that step's update function; only step 11 (`updateSafeBalls`) has a real one. Along the way, `scrollVis` derives its data at load time:
- colDataPreprocessor classifies each study program as *always enough*, *enough after support* or *still not enough*;
- `PCI22Grouped` regroups the 2022 CPI table into one series per CPI component;
- the chart setup computes the scatterplot and bar-chart axis domains;
- reOrderBar sorts the funding table by the money left.

`js/treemap.js` is an unrelated zoomable treemap. A click on a cell zooms to it: it records the cell's depth, points the "up" button at the cell's parent (or at the root), sets both axis domains to the cell's box, and toggles the `hide` class on the cells. The colour of a cell is that of its ancestor-or-self at depth min(depth, 2): the cell itself when its depth is at most 2, otherwise its ancestor at depth 2.

Modules:
- `JsValues` (js_values.dfy): JavaScript numbers that may be NaN, `undefined` as `None`, `>` on numbers and `<` on strings (comparing characters by code point).
- `D3Array` (d3_array.dfy): `d3.range`, `d3.min`, `d3.max`.
- `Choreographer` (choreographer.dfy): the step tables, `activate` and `update`, as the class `ScrollVis`.
- `Preprocess` (preprocess.dfy): colDataPreprocessor and `PCI22Grouped`.
- `Charts` (charts.dfy): the scatter and bar domains and reOrderBar, with the class `BarChart` for the bar chart's state.
- `Treemap` (treemap.dfy): the laid-out hierarchy, the class `TreemapZoom` for zoom's state, and the colour-ancestor loop.

Most enter functions only draw: they move, show and hide SVG elements. Two of them change the bar chart's state, and the model has them as methods of `BarChart`: reOrderBar (step 15) and showReverseBar (step 14). Three more reset the line-chart domains, which are not modelled. The model records every enter and update call in a ghost trace, by the function's name or the progress value passed. JavaScript's string-to-number conversion (`+s`, `Number(s)`) is a parameter `num: string -> Num` wherever it is applied.

## Model

| member | source | states |
|---|---|---|
| Choreographer.ScrollVis.constructor | js/sections.js:21-22 | Nothing is activated yet (lastIndex -1, activeIndex 0) and both step tables are empty. |
| Choreographer.ScrollVis.SetupSections | js/sections.js:761-792 | Registers the seventeen enter functions in step order. The update table gets one entry per step: a no-op exactly at every step other than 11, and updateSafeBalls at 11. The scroll state and traces are untouched. |
| Choreographer.EnterTableDense | js/sections.js:764-780 | The enter table has seventeen steps and no function is registered twice, so the trace of enter calls identifies the steps entered. |
| Choreographer.ScrollVis.Activate | js/sections.js:1962-1970 | The enter functions called are exactly those of the steps on the scrolled path from the old lastIndex to index, in order, and every step on that path is registered. Afterwards activeIndex and lastIndex are index, and the tables are unchanged. |
| Choreographer.ScrolledSections | js/sections.js:1964-1965 | The scrolled path is empty exactly when index equals last. Otherwise it has \|index - last\| steps, last+1, ..., index going forward and last-1, ..., index going back: it never revisits last and ends at index. |
| Choreographer.ScrollVis.EnterAlong | js/sections.js:1966-1968 | The forEach calls the enter function of every step of the path once, in path order, and changes nothing else. |
| Choreographer.ForwardCatchUp | js/sections.js:1962-1970 | A forward jump from step j to step k calls the enter functions of steps j+1..k, each once, in increasing order; from the start (j = -1) that is every step up to k. |
| Choreographer.BackwardCatchUp | js/sections.js:1962-1970 | A backward jump from k to j calls the enter functions of k-1 down to j, each once, in decreasing order, and never re-enters k. |
| Choreographer.SameStepNoCalls | js/sections.js:1964-1967 | Activating the step that is already the last one calls nothing. |
| Choreographer.ScrolledSectionsRegistered | js/sections.js:1965-1967 | When last and index are registered steps (or index equals last), every step on the path is registered. |
| Choreographer.UnregisteredStepReached | js/sections.js:1965-1967 | The path reaches a step without an enter function (a call of undefined) exactly when index differs from last and lies outside the table. |
| Choreographer.ScrollVis.Update | js/sections.js:1978-1980 | At step 11 the progress is passed to updateSafeBalls; at every other step nothing changes. |
| D3Array.Range | js/sections.js:1965 | `d3.range(start, stop, step)` is empty exactly for a zero step or a stop not beyond start in the step's direction. Otherwise it starts at start, moves one step at a time, stays in [start, stop) going up or (stop, start] going down, and does not end early: one more step would reach or pass stop. |
| D3Array.RangeUp | js/sections.js:1965 | `d3.range(a, b, 1)` is the integers of [a, b). |
| D3Array.RangeDown | js/sections.js:1965 | `d3.range(a, b, -1)` is the integers of (b, a], falling. |
| D3Array.MaxOf | js/sections.js:486-494 | `d3.max` over numbers skips NaN. It is undefined exactly when no value is a number; otherwise it is one of the values and no number exceeds it. |
| D3Array.MinOf | js/sections.js:483-491 | `d3.min` over numbers: the mirror of MaxOf. |
| D3Array.StrMaxOf | js/sections.js:375-380 | `d3.max` over strings: undefined exactly for no rows; otherwise one of the strings, with none above it in JavaScript string order. |
| D3Array.StrMaxKeepsHead | js/sections.js:375-380 | A string not below the maximum of the rest is not below any string of the rest. |
| JsValues.Gt | js/sections.js:1909-1913 | JavaScript `>` on numbers: false whenever either side is NaN; between two numbers, the real order. A true result means both sides are numbers and they differ. |
| JsValues.GtStrictOrder | js/sections.js:1909-1913 | `>` is asymmetric and transitive, orders any two different numbers one way or the other, and never holds with NaN on either side. |
| JsValues.StrLess | js/sections.js:375-380 | JavaScript `<` on strings is lexicographic: at the first position where the two strings differ, the smaller character decides. A proper prefix is below the longer string, no string is below one of its own prefixes, and no string is below itself. |
| JsValues.StrLessTransitive | js/sections.js:375-380 | JavaScript string `<` is transitive. |
| JsValues.StrLessTotal | js/sections.js:375-380 | Any two different strings are ordered one way or the other. |
| JsValues.StrLessAsymmetric | js/sections.js:375-380 | Two strings are never each below the other. |
| Preprocess.Classify | js/sections.js:1909-1917 | A program is always enough iff its basic income exceeds its basic expenses. It is enough after support iff it is not always enough and the supported income exceeds the expenses. Otherwise it is still not enough; ties and NaN fall through. |
| Preprocess.ClassifyExamples | js/sections.js:1909-1917 | One instance of each class, a tie and a NaN expense, each classified as the comparisons say. |
| Preprocess.ColDataPreprocessor | js/sections.js:1895-1920 | One output row per input row, same order and program, with the three amounts number-coerced. Each row's status is the classification of its own coerced amounts. |
| Preprocess.Pci22Grouped | js/sections.js:181-191 | Seven series, one per CPI component of allGroup in its order, each with one point per CPI row. |
| Preprocess.GroupedRoundTrip | js/sections.js:181-191 | Every series shares the rows' time axis, and reading the series back gives each row's seven component values: grouping loses nothing. |
| Charts.PaddedDomain | js/sections.js:483-507 | When some value is a number, both bounds are numbers, every number lies at least paddingForAxis (200) inside them, and each bound is exactly 200 beyond a value. When all values are NaN, both bounds are NaN. |
| Charts.ScatterDomains | js/sections.js:483-507 | Each numeric bound is exactly 200 beyond some program's value, and every program's value lies at least 200 inside it, on x (basic expenses) and on y (supported income). So each axis runs from its smallest value minus 200 to its largest plus 200. An axis has numeric bounds iff some value on it is a number. |
| Charts.Universities | js/sections.js:381-385 | The band domain lists each row's university, in row order. |
| Charts.BarXDomainAsWritten | js/sections.js:373-380 | The bar x domain as written starts at 0. It is NaN-topped for an empty table; otherwise it ends at the number of the funding text that is largest as a string. |
| Charts.BarXDomainTextOrder | js/sections.js:373-380 | For fundings "9" and "25", the as-written domain ends at 9 while the numeric one ends at 25. |
| Charts.BarXDomain | js/sections.js:373-380 | The corrected bar x domain starts at 0 and ends at the largest numeric funding, which some row attains, so every bar fits. It is NaN exactly when no funding is a number. |
| Charts.InsertByLeft | js/sections.js:1656-1663 | Inserting a row keeps every row and adds exactly that one. |
| Charts.InsertByLeftSorted | js/sections.js:1656-1663 | Inserting a row with a numeric key into rows sorted ascending by money left keeps them sorted. |
| Charts.InsertByLeftStable | js/sections.js:1656-1663 | Inserting a row keeps the rows of every key in their order, with the new row ahead of the rows that share its key. |
| Charts.SortByLeft | js/sections.js:1656-1663 | The sorted copy is a permutation of the table, ascending by Number(Yearly_left_kCAD) whenever every key is a number, and stable: the rows with any one key appear in table order. |
| Charts.ReorderedUniversities | js/sections.js:1666-1670 | The re-ordered band domain names the same universities, as often, as the table. |
| Charts.UniversitiesInsert | js/sections.js:1666-1670 | Inserting a row adds exactly its university to the multiset of universities. |
| Charts.UniversitiesInsertPast | js/sections.js:1666-1670 | The inductive step of UniversitiesInsert where the row moves past the first row. |
| Charts.UniversitiesCons | js/sections.js:381-385 | Prepending a row adds its university to the multiset of universities. |
| Charts.BarChart.constructor | js/sections.js:192 | After loading: the funding table as read, no sorted copy, d3's default domains. |
| Charts.BarChart.SetupBarVis | js/sections.js:373-385 | Sets the x domain as the code does: 0 to the number of the funding text that is largest as a string (BarXDomainAsWritten). Sets the y domain to the universities in table order. |
| Charts.BarChart.ShowReverseBar | js/sections.js:1593-1597 | The band domain goes back to the universities in table order, undoing ReOrderBar's ordering. |
| Charts.BarChart.ReOrderBar | js/sections.js:1648-1670 | The funding table keeps its order. The sorted copy is a permutation of it, ascending by money left and stable when every key is a number. The y domain lists the sorted copy's universities: the same ones as before, as often. |
| Treemap.UpTarget | js/treemap.js:110 | The up button's datum is a node of the tree, one level above the clicked node, or the root for the root. |
| Treemap.Climb | js/treemap.js:102-110 | Any number of up clicks stays in the tree. |
| Treemap.UpClicksReachRoot | js/treemap.js:102-110 | After k up clicks from n the focus is at depth max(0, depth(n) - k); after depth(n) clicks, and ever after, it is the root. |
| Treemap.ZoomVisibility | js/treemap.js:132-144 | After a zoom to d, every cell deeper than d is shown. A cell at d's depth or above is hidden exactly when it has children, so no leaf is ever hidden. |
| Treemap.ZoomShowsChildrenHidesAncestors | js/treemap.js:132-144 | Zooming into a cell shows its children, and hides each strict ancestor, the cell 1 to depth up clicks away. |
| Treemap.ZoomRootFixed | js/treemap.js:102-110 | At the root the up button stays on the root, so clicking it reproduces the same state. |
| Treemap.ColourNode | js/treemap.js:89-92 | The colour comes from the ancestor-or-self at depth min(depth, 2): the node reached by climbing exactly depth - 2 parents, or the node itself when it is shallower. |
| Treemap.HideThisDepthAndAbove | js/treemap.js:132-138 | Every cell passes the ancestors() filter and gets the hide class exactly when it has children. |
| Treemap.ShowBelow | js/treemap.js:140-144 | Every cell deeper than the zoom depth loses the hide class; the others keep theirs. |
| Treemap.TreemapZoom.constructor | js/treemap.js:3-4 | At load, currentDepth is undefined, the up button holds the root, both domains are [0, 100] and no cell is hidden. |
| Treemap.TreemapZoom.Zoom | js/treemap.js:104-145 | The state afterwards is a function of the clicked node alone: its depth, its parent or the root as up target, its box as the domains, and the hide flags of ZoomVisibility. |
| Treemap.TreemapZoom.ClickUp | js/treemap.js:102 | A click on the up button zooms to the node it holds. |

## Left out

- DOM drawing, transitions, easing, axis rendering, tooltips and colours are left out. They are rendering only; the choreographer records the enter and update calls by name instead.
- The drawing done by the seventeen enter functions and by updateSafeBalls is left out: it moves, shows and hides SVG elements. The model has their state changes on the bar chart's band domain as Charts.BarChart.ReOrderBar and Charts.BarChart.ShowReverseBar.
- The line-chart domain resets in showCPILine, show12MonthCPILine and showMultiLines are left out. Each sets the line scales' domains: x to the extent of a CPI table's times, and y to the min and max of a CPI column, or to the fixed [-0.05, 0.17] for the grouped series. The line scales are not part of the model.
- The scroller, which turns scroll positions into `active` and `progress` events, and the CSV loading are left out. They are browser I/O; `activate` and `update` take the index and progress as parameters.
- The number coercion `+s` / `Number(s)` is the parameter `num`. JavaScript's numeric-literal grammar is not modelled.
- cpiDataPreprocessor and cpi22DataPreprocessor are left out. They parse dates with `d3.timeParse` and coerce numbers; a CPI row enters the model already parsed, with an unparsable time as `None`.
- Numbers are mathematical reals rather than IEEE doubles: `bound ± 200` and the comparisons carry no rounding.
- d3.treemap's layout and d3.hierarchy's construction are left out. The tree enters the model laid out, with the guarantees WellFormed states.
- Choreographer.ScrollVis.Activate: the method requires an index that is registered or equal to lastIndex. The source does not check this: any other index makes the walk call `undefined`, which throws part way through the path. Choreographer.UnregisteredStepReached characterises exactly when that happens.
- Choreographer.ScrollVis.Update: the method requires a registered index. Any other index calls `undefined` and throws.
- JsValues.StrLess: compares characters by Unicode code point, while JavaScript compares UTF-16 code units. The two orders differ only between a character in U+E000..U+FFFF and one above U+FFFF.
- Charts.SortByLeft: with a NaN key, `d3.ascending` gives NaN and the order `Array.prototype.sort` then produces is engine-defined. The model inserts rows in a fixed way. Its ordering promise covers only all-numeric keys; BarChart.ReOrderBar promises stability under the same condition, since for NaN keys the source gives no order to be stable.
- Charts.Universities: the band scale drops a repeated university name from its domain. The model keeps the mapped list, which is what reOrderBar passes to the scale.
- Treemap.TreemapZoom.Zoom: the transition to the new positions is not modelled; only the domains it animates to are.
- Clicking the focused cell again zooms into the same cell, as the code does. It does not zoom out to the parent, and hide flags go to cells at or above the focus, not to deeper ones.

## Findings

| source | as written | input that shows it | evidently intended | confidence | as-written member | corrected member |
|---|---|---|---|---|---|---|
| js/sections.js:373-380 | setupBarVis takes `d3.max` of `Yearly_funding_kCAD` straight from the CSV (fundingDataPreprocessor returns the rows unchanged). The maximum is therefore taken in string order. | Two universities with fundings "9" and "25": the axis ends at 9 and the 25 bar runs past it. | The x domain ends at the numerically largest funding. | not executed | Charts.BarXDomainAsWritten, Charts.BarXDomainTextOrder | Charts.BarXDomain |
