# RrdPlotly in Dafny

A model of the archive-selection and labelling core of `RrdPlotly`, the class
that draws a round-robin database (RRD) file as a chart. An RRD holds data
sources (DSs) sampled into round-robin archives (RRAs), each with its own step
and row count. `RrdPlotly`:

- takes a snapshot of the DSs at load time;
- rebuilds the time axis of the chosen archive from the last-update instant;
- pulls each DS's column out of that archive, one trace per DS;
- offers a picker with one button per archive, captioned with compact
  duration labels produced by `formatTime`;
- switches archives when a button is clicked.

The parsed file is an immutable value (`RrdFile.Rrd`): archives with a
positive step, at least one row and a cell reader `getEl(row, ds)` over
opaque cell values, the DS names, and the last update in epoch seconds. A
displayable file (`RrdFile.Valid`) also has at least one archive, because
`initRrd` always selects archive 0. Real RRD files always have one. The
mutable fields of the class become `Session.Session`. Its fixed parts are the
file, `lastUpdate` and `shownDSs`. Its `current` selection (`rraIdx`, `rows`,
`dates`) is replaced as a whole by `initRra`.

Modules, in dependency order:

- `Wrappers`: the `Option` type.
- `Decimal`: the decimal numeral JavaScript writes for a non-negative integer, and reading it back.
- `DurationFormat`: `formatTime` and its bands in closed form.
- `DurationLabel`: a reader for duration labels, and the theorem that every label reads back to within the precision of its band.
- `RrdFile`: the abstract parsed file.
- `TimeAxis`: the axis loop of `initRra` and the shape of the axis.
- `Session`: `getShownDSs`, `initRra`, `initRrd` and the invariant they keep.
- `Traces`: `getData`, `createTrace`, `createData`, and DS name, axis and colour.
- `Picker`: `createRraButtons` and splitting a button caption back into its two labels.
- `Plot`: the click handler, a sequence of clicks, the layout's range and active button, and a two-archive example.

Points of the code worth knowing, which the model reproduces:

- `formatTime(125)` is `"2 min"`, not `"2:5 min"`: leftover seconds are shown only when they exceed 9.
- `formatTime(90000)` is `"25 hrs"`: hours are used up to 47, and days only from 48 hours on.
- `DurationFormat.FormatTimeExamples` records these values.
- `initRra` does not check its archive index; indices reach it only from the
  picker's buttons. `Session.InitRra` therefore requires an index in range,
  and `Plot.OnButtonClicked` shows that every picker button meets that
  requirement.

## Model

| member | source | states |
|---|---|---|
| Decimal.NatToString | js/rrd/RrdPlotly.js:224 | the numeral that number-to-string concatenation writes has only digits, is never empty, has a leading zero only for 0, and is one character exactly for values below 10 |
| Decimal.NatToStringRoundTrip | js/rrd/RrdPlotly.js:224 | reading the numeral of n back gives n, so distinct counts have distinct numerals |
| DurationFormat.FormatTimeSeconds | js/rrd/RrdPlotly.js:222-225 | below 60 seconds the label is the second count followed by "s" |
| DurationFormat.FormatTimeMinutes | js/rrd/RrdPlotly.js:226-234 | from 60 s to under an hour: "m:r min" when s/60 < 10 and s mod 60 > 9 (no zero padding), otherwise "m min" |
| DurationFormat.FormatTimeHours | js/rrd/RrdPlotly.js:236-244 | from one hour to under 48 hours: "h:mm hrs" when s/3600 < 12 and the leftover minutes exceed 9, otherwise "h hrs", with h = s/3600 |
| DurationFormat.FormatTimeDays | js/rrd/RrdPlotly.js:246-254 | from 48 hours to under 60 days: "d days {rh}h" (hour count unpadded, then the letter h) when d = s/86400 < 7 and the leftover hours rh are non-zero, otherwise "d days" |
| DurationFormat.FormatTimeMonths | js/rrd/RrdPlotly.js:255-257 | from 60 days on the label is the number of whole 30-day months followed by " months"; the leftover days are dropped |
| DurationFormat.FormatTimeExamples | js/rrd/RrdPlotly.js:222-244 | 45 gives "45s", 75 gives "1:15 min", 125 gives "2 min", 3600 gives "1 hrs", 90000 gives "25 hrs" |
| DurationFormat.FormatTimeExampleDays | js/rrd/RrdPlotly.js:246-250 | 277200 gives "3 days 5h" |
| DurationFormat.FormatTimeExampleMonths | js/rrd/RrdPlotly.js:255-257 | 5184000 (60 days) gives "2 months" |
| DurationFormat.FormatTimeIsLabelText | js/rrd/RrdPlotly.js:222-258 | every label is non-empty and made only of digits, ':', ' ' and unit letters, so it never contains the parentheses of a button caption |
| DurationLabel.FormatTimeReadBack | js/rrd/RrdPlotly.js:222-258 | every label parses back to a duration v with v <= s < v + Precision(s): the label truncates, never overstates, and is exact below a minute |
| TimeAxis.BuildDates | js/rrd/RrdPlotly.js:183-190 | the loop that starts at lastUpdate - rows*step and adds step after each push yields exactly rows entries, entry i being lastUpdate - rows*step + i*step |
| TimeAxis.AxisSpacing | js/rrd/RrdPlotly.js:187-190 | consecutive timestamps of an axis differ by exactly one step |
| TimeAxis.AxisEnds | js/rrd/RrdPlotly.js:183-190 | the first timestamp is rows*step before the last update, with no clamping, and the last is one step before it |
| TimeAxis.AxisIncreasing | js/rrd/RrdPlotly.js:183-190 | with a positive step the timestamps strictly increase |
| Session.GetShownDSs | js/rrd/RrdPlotly.js:67-75 | the snapshot lists data sources 0 .. getNrDSs()-1 in index order, each with its own name |
| Session.InitRra | js/rrd/RrdPlotly.js:178-191 | selecting archive idx sets rraIdx to idx, rows to the archive's rows and dates to its axis; file, lastUpdate and shownDSs are unchanged; a consistent session stays consistent |
| Session.InitRrd | js/rrd/RrdPlotly.js:193-199 | loading takes lastUpdate from the file and the DS snapshot once, then selects archive 0, giving a consistent session |
| Session.SelectPreservesConsistent | js/rrd/RrdPlotly.js:178-191 | an archive switch keeps the session invariant and changes nothing but the selection |
| Session.ConsistentUnique | js/rrd/RrdPlotly.js:193-199 | two consistent sessions of the same file on the same archive are equal, so loading is deterministic |
| Session.SelectIdempotent | js/rrd/RrdPlotly.js:203-206 | clicking the same archive twice gives the same state as clicking it once |
| Session.SelectForgetsPrevious | js/rrd/RrdPlotly.js:178-191 | the state after a switch does not depend on the archive shown before |
| Session.ConsistentAxis | js/rrd/RrdPlotly.js:178-191 | in a consistent session the axis has rows > 0 entries, one step apart, strictly increasing, from lastUpdate - rows*step to lastUpdate - step |
| Traces.DsColor | js/rrd/RrdPlotly.js:56-61 | as written, the map callback returns nothing, so the joined colour is "#" for every data source |
| Traces.GetData | js/rrd/RrdPlotly.js:77-86 | the column has exactly rows values, value i being getEl(i, dsIdx) of the active archive unchanged |
| Traces.CreateTrace | js/rrd/RrdPlotly.js:88-102 | a trace carries the DS name, the current dates as x, the DS column as y, axis "y1", the DS colour and connected gaps; in a consistent session y is as long as x |
| Traces.CreateData | js/rrd/RrdPlotly.js:104-106 | one trace per shown DS, in snapshot order, each named after DS k and with y as long as x |
| Picker.CreateRraButtons | js/rrd/RrdPlotly.js:108-125 | exactly getNrRRAs() buttons in archive order; button i has args [i], method "skip" and label formatTime(step) + " (" + formatTime(step*rows) + ")" |
| Picker.SplitButtonLabelOf | js/rrd/RrdPlotly.js:119 | a caption splits at its first '(' back into the step label and the period label it was built from |
| Picker.ButtonLabelReadBack | js/rrd/RrdPlotly.js:113-119 | both halves of a caption read back, to within their band's precision, to the archive's step and to step*rows |
| Plot.OnButtonClicked | js/rrd/RrdPlotly.js:203-206 | clicking picker button i re-runs initRra with archive i, keeping the session consistent |
| Plot.LastClickWins | js/rrd/RrdPlotly.js:203-206 | after clicks handled in arrival order, the session is consistent, its fixed parts are unchanged, and its selection is that of the last click |
| Plot.CreateLayout | js/rrd/RrdPlotly.js:127-154 | the layout carries the `title` of the options given to `plot` (absent when the options have none), the picker and the active archive's button, and its x range runs from lastUpdate - rows*step to lastUpdate - step |
| Plot.ExampleSwitch | js/rrd/RrdPlotly.js:178-206 | for a two-archive file (300 s x 288, 3600 s x 168, last update 1000000), archive 0 shows 288 timestamps ending at 999700 and archive 1 shows 168 ending at 996400, with both DSs kept |

## Left out

- `plot`, `loadRrd`, `FetchBinaryURLAsync` and the `RRDFile` parser: asynchronous I/O and library code. The parsed file is an abstract immutable value.
- `plotBy`, `react`, `Plotly.newPlot`, `getElementById` and the event registration: calls into the chart library and the DOM. The click handler is modelled as the state transition it performs.
- `createLayout`: the margins, colours, axis styles and menu placement are constants and are not modelled. Only the title, the buttons, the active index and the x range are modelled.
- `createTrace`: the constants `type: "scatter"`, `mode: "lines"` and `line.shape: 'spline'` are not modelled. `Traces.Trace` keeps the name, x, y, axis, colour and gap setting.
- `RrdPlotly.date`: wraps an epoch-seconds timestamp in a JavaScript `Date`. Timestamps stay integers.
- Subclass overrides of any method, for instance `getShownDSs`, `getDsName`, `getDsColor` or `getDsAxis`: the model has only the base behaviour. `Session.Consistent` requires the shown data sources to be the snapshot the base `getShownDSs` builds.
- Event dispatch by the chart library: clicks are modelled as a sequence handled one at a time in arrival order (`Plot.ApplyClicks`), which is how a single-threaded handler sees them.
- Load failures and renderer errors: they arise in the asynchronous load and in the chart library, neither of which is modelled.
- Plot.CreateLayout: a call of `plot(url, id)` with no options object makes `createLayout` throw a TypeError when it reads `options.title`, and no chart is drawn. The model takes the `title` property itself, so it always has an options object. An options object without a `title` is represented, as an absent (None) title.
- Decimal.NatToString: numbers of 10^21 and more, which JavaScript prints in exponent form, are not modelled. Timestamps and durations are far smaller.
- Numbers are unbounded integers. JavaScript doubles are exact only below 2^53, which covers epoch seconds and archive periods.
- Cell values are an opaque type with no numeric reasoning. Reads outside the archive and their errors belong to the parser, which is not part of this model.
- Session.InitRra: an out-of-range index is excluded by a precondition instead of failing, because the code performs no check and receives indices only from its own picker buttons.
