# Stock query dashboard: signal detection and client rendering, in Dafny

This project models the two halves of the dashboard's `/query` exchange and proves properties about them.

**Server (`app.py`)**
- `fetch_stock_data` checks its arguments and fills in the default 180-day date window.
- `calculate_indicators_with_signals` runs its signal loops. MA, KD and MACD use a crossover rule. RSI uses a 30/70 threshold-crossing rule. Python's NaN comparisons are modelled: every comparison with NaN is false.
- `query_stock` serialises the indicators, turning NaN into `null`, and turns a raised error into `{'error': message}`.

**Client (`static/js/app.js`)**
- The `charts` object has six slots, cleared by `destroyAllCharts`.
- The query button's click handler:
  - trims the inputs and refuses an empty symbol;
  - builds the payload and shows the loading texts;
  - handles three kinds of answer: a failure, an error body, and a result.
- `formatDate`.
- `displayGPTAnalysis`: lines are split, filtered and classified as headings or paragraphs.
- `displayTable`: `N/A` cells, and a per-row signal marker.
- The `submit` validation loops of the signup and login forms.

Modules, one per file:

| module | file | models |
|---|---|---|
| Common | common.dfy | values shared by both sides: `Option`, `Result`, signal records |
| JsText | jstext.dfy | `trim`, `split`/`join`, `String(n)` and `padStart` |
| Signals | signals.dfy | the signal loops |
| StockQuery | stockquery.dfy | `fetch_stock_data` and `query_stock` |
| DateFormat | dateformat.dfy | `formatDate` |
| Analysis | analysis.dfy | `displayGPTAnalysis` |
| ResultTable | resulttable.dfy | `displayTable` |
| Charts | charts.dfy | the `charts` object and `destroyAllCharts` |
| Dashboard | dashboard.dfy | the query button's click handler and `displayBasicInfo` |
| FormGuard | formguard.dfy | the signup and login `submit` handlers |

Where code changes state, the model does too.
- The signal loops, the serialisation loop, the table's `forEach` and the form loops are methods with `while` loops.
- The chart slots and the page are classes.
- Each method is proved against a pure specification function.
- Lemmas prove what the source promises about those functions.

The same code serves both signup (static/js/app.js:289-313) and login (static/js/app.js:325-350). `FormGuard.Form` models either.

Outside collaborators are parameters:
- the market-data download;
- TA-Lib;
- the analysis text;
- the server clock;
- the answer the page receives;
- `toFixed(2)` and `toLocaleString()`.

Two behaviours of the code worth knowing:
- **Marker cell:** it always joins four slots with three spaces. A row where no family fired shows three spaces, not an empty cell (`ResultTable.QuietRowMarker`).
- **Error answer:** the old charts stay alive. `destroyAllCharts` runs only when `data.error` is falsy (static/js/app.js:48,54), so an error body with an empty `error` reaches it. Reading the missing indicators in `displayBasicInfo` (static/js/app.js:91) then throws, which is why the generic notice follows (`Dashboard.Page.OnQuery`).

## Model

| member | source | states |
|---|---|---|
| Common.TypeName | app.py:71-73 | a signal type is rendered as exactly `buy` or `sell`, and the two never coincide |
| Signals.EmittedWellFormed | app.py:69-73 | every position in a family's list lies in [1, n-1]; positions strictly increase, so there is at most one record per position |
| Signals.EmittedMembership | app.py:68-73 | a record `(i, t)` is in the list iff 1 <= i < n and the rule fires with type `t` at `i` |
| Signals.CrossoverSignals | app.py:68-73 | crossover rule (MA, and KD and MACD at app.py:80-85 and 93-98). A `buy` at `i` iff fast > slow at `i` and fast <= slow at `i-1`. A `sell` at `i` iff fast < slow at `i` and fast >= slow at `i-1`. Both directions hold, and NaN compares false |
| Signals.ThresholdSignals | app.py:104-109 | RSI rule. A `buy` at `i` iff rsi[i] < 30 and rsi[i-1] >= 30. A `sell` at `i` iff rsi[i] > 70 and rsi[i-1] <= 70. Both values must be present |
| Signals.MissingValueSilences | app.py:70-72 | a missing value at `i` or `i-1` means no record at `i` |
| Signals.FiringNeedsValues | app.py:70-72 | the rule fires only where every value it compares is present |
| Signals.SignalAt | app.py:69-73 | (definition) the if/elif of the loop body at one index: `buy`, `sell` or nothing. Its meaning is stated by CrossoverSignals and ThresholdSignals |
| Signals.Emitted | app.py:69-73 | (definition) the list the loop has built after visiting `range(1, k)`. Its meaning is stated by EmittedMembership and EmittedWellFormed |
| Signals.NoSignalInWarmUp | app.py:69-73 | if at each of the first `w` bars some series the rule reads is NaN, every position is greater than `w`. For MA this covers the 19-bar gap of ma20 (app.py:62), not only the 4-bar gap of ma5 |
| Signals.DetectCrossovers | app.py:68-73 | the MA/KD/MACD loop returns exactly the specified list, and the list is well formed |
| Signals.DetectThresholdCrossings | app.py:104-109 | the RSI loop returns exactly the specified list, and the list is well formed |
| Signals.CalculateIndicatorsWithSignals | app.py:51-111 | every indicator key holds its TA-Lib output. Each of the four families holds the list its rule specifies over the `n` bars, and that list is well formed |
| StockQuery.ErrorMessage | app.py:37-49 | both raised messages are non-empty, so the client sees a truthy `error` |
| StockQuery.RequestedWindow | app.py:41-43 | (definition) the window `fetch_stock_data` downloads: the default 180 days when no start date is given. Stated by WindowDefaulting |
| StockQuery.WindowDefaulting | app.py:41-43 | without a start date, the window is [now - 180 days, now] and any end date is ignored. With a start date, both dates pass through unchanged |
| StockQuery.FetchStockData | app.py:37-49 | an empty or absent symbol fails before any download. An empty download fails with `NoData`. Otherwise the rows of the requested window are returned |
| StockQuery.SerialiseValue | app.py:293-296 | (definition) a series becomes a list with `None` for NaN, a scalar becomes a float. Stated by SerialiseSeries and SerialiseRoundTrip |
| StockQuery.SerialiseSeries | app.py:291-296 | the list has the same length as the series. Entry `j` is `None` iff the value is NaN, and is the value otherwise |
| StockQuery.SerialiseRoundTrip | app.py:291-296 | reading a serialised indicator back gives the original series or scalar |
| StockQuery.SerialiseIndicators | app.py:291-296 | the loop keeps every key and serialises each value |
| StockQuery.QueryStock | app.py:277-307 | empty symbol: the empty-symbol error. Empty download: the no-data error. Otherwise the rows, every indicator recoverable from its JSON form, and each family's specified, well-formed list. The `gpt_analysis` field is the analysis of those rows, indicators and signals |
| JsText.Trim | static/js/app.js:17-19 | (definition) `trim()`: leading, then trailing white space removed. Stated by TrimSpec and TrimEmptyIffBlank |
| JsText.TrimSpec | static/js/app.js:17-19 | `trim()` yields an infix of the input that neither starts nor ends with white space, and everything it strips before and after that infix is white space |
| JsText.TrimEmptyIffBlank | static/js/app.js:21 | the trimmed text is empty iff the input is all white space |
| JsText.Split | static/js/app.js:108-109 | `split('\n')` gives at least one piece, and no piece contains the separator. JoinSplit and SplitJoin state it fully |
| JsText.JoinSplit | static/js/app.js:108-109 | joining the pieces of `split('\n')` gives back the text |
| JsText.SplitJoin | static/js/app.js:108-109 | splitting a join of newline-free lines gives back the lines |
| JsText.DecimalString | static/js/app.js:83-85 | `String(n)` is never empty. DecimalStringSpec and ParseDecimalString state it fully |
| JsText.DecimalStringSpec | static/js/app.js:83-85 | `String(n)` is all digits with no leading zero, and is one digit iff n < 10 |
| JsText.ParseDecimalString | static/js/app.js:83-85 | reading `String(n)` back gives `n` |
| JsText.DecimalStringLength | static/js/app.js:83 | `String(n)` has 2, 3 or 4 digits in the corresponding ranges |
| JsText.PadStart | static/js/app.js:84-85 | `padStart` gives the text's length or the width, whichever is larger. PadStartSpec states the contents |
| JsText.PadStartSpec | static/js/app.js:84-85 | `padStart` keeps the text as a suffix and fills the front with the fill character |
| DateFormat.TwoDigitsExact | static/js/app.js:84-85 | a month or day below 100 becomes exactly two digits that read back as itself |
| DateFormat.FormatDate | static/js/app.js:81-87 | (definition) the year, the 1-based month and the day, the last two padded to two digits. Stated by the three lemmas below |
| DateFormat.FormatDateLayout | static/js/app.js:81-87 | for every valid date the output is all digits: the year in as many digits as it needs, then the 1-based month padded to two, then the day padded to two. A four-digit year gives eight digits |
| DateFormat.FormatDateRoundTrip | static/js/app.js:81-87 | for every valid date, the text reads back as the same date (the last four digits are month and day) |
| DateFormat.FormatDateInjective | static/js/app.js:81-87 | two different valid dates (month index 0-11, day 1-31, as `getMonth` and `getDate` return) never format alike, whatever their years |
| Analysis.IsHeadingLine | static/js/app.js:113 | (definition) the `/^\d+\./` test. Stated by HeadingIffPattern |
| Analysis.HeadingIffPattern | static/js/app.js:113 | the heading test holds iff the line is one or more digits followed by a dot (`^\d+\.`) |
| Analysis.Classify | static/js/app.js:111-117 | a block keeps its line, and is a heading iff the line matches `^\d+\.` |
| Analysis.KeptIffTrimmedNonEmpty | static/js/app.js:110 | a line is kept iff `line.trim() !== ''` |
| Analysis.KeptLines | static/js/app.js:110 | (definition) the `filter` of non-blank lines. Stated by KeptLinesAt, KeptIndicesIncreasing and KeptIndicesMembership |
| Analysis.KeptLinesAt | static/js/app.js:110 | the filter's output is the lines at the kept indices |
| Analysis.KeptIndicesIncreasing | static/js/app.js:110 | the kept indices strictly increase, so the original order is preserved |
| Analysis.KeptIndicesMembership | static/js/app.js:110 | an index is kept iff its line is not blank |
| Analysis.ClassifyAll | static/js/app.js:111-117 | the map yields one block per kept line, in the same order |
| Analysis.AnalysisBlocks | static/js/app.js:108-118 | (definition) split, filter and map. Stated by AnalysisBlocksSpec |
| Analysis.AnalysisBlocksSpec | static/js/app.js:108-118 | one block per non-blank line, in original order. A block is a heading iff its line matches `^\d+\.`. The lines are exactly the newline-separated pieces of the text |
| Analysis.AnalysisHtml | static/js/app.js:101-124 | (definition) the fallback notice for absent or empty text, the joined blocks inside the wrapper otherwise. Stated by FallbackIffAbsent |
| Analysis.FallbackIffAbsent | static/js/app.js:101-124 | the fallback notice appears iff the text is absent or empty. Any other text, even one that keeps no line, renders the wrapper |
| Analysis.BlankTextIsNotFallback | static/js/app.js:102-124 | every non-empty text made only of white space and line breaks is truthy: it yields no blocks and an empty wrapper, not the fallback |
| ResultTable.IndicatorCell | static/js/app.js:149-154 | the cell is `N/A` or the rendering of the value at that index. A missing index or a `null` gives `N/A` |
| ResultTable.IndicatorCellSpec | static/js/app.js:149-154 | with a `toFixed`-like formatter, the cell is `N/A` iff the value is absent. A present 0 renders as `fmt(0)`, not `N/A` |
| ResultTable.FindType | static/js/app.js:156-159 | (definition) `find(s => s.position === index)?.type`. Stated by FindTypeSpec |
| ResultTable.FindTypeSpec | static/js/app.js:156-159 | `find` fails iff no record sits at that position. When it succeeds, its type is that of the FIRST record at that position: no earlier record has that position |
| ResultTable.FindTypeWellFormed | static/js/app.js:156-159 | on a server-produced list, the lookup returns `t` iff `(index, t)` is in the list |
| ResultTable.ServerSignalAtRow | static/js/app.js:156-159 | for the server's lists, the lookup at a row is exactly what the family's rule decided at that bar; nothing at bar 0 or past the end |
| ResultTable.Marker | static/js/app.js:161 | (definition) the four slots joined by spaces. Stated by MarkerIsSlots, QuietRowMarker and MarkerRoundTrip |
| ResultTable.SlotText | static/js/app.js:161 | a slot is empty iff its family has no signal at the row |
| ResultTable.QuietRowMarker | static/js/app.js:161 | a row where no family fired still shows the three separators |
| ResultTable.MarkerIsSlots | static/js/app.js:161 | the marker is the KD, MA, MACD and RSI slots, in that order, joined by single spaces |
| ResultTable.ReadSlotsText | static/js/app.js:161 | slots joined by spaces read back as the slot contents |
| ResultTable.MarkerRoundTrip | static/js/app.js:156-161 | the marker reads back as the first signal of each family at that row |
| ResultTable.RowOf | static/js/app.js:149-177 | (definition) the cells of one row. Stated by RowOfSpec |
| ResultTable.RowOfSpec | static/js/app.js:148-177 | a row shows its date as `YYYYMMDD`. Each indicator column is `N/A` iff that value is absent. KD joins K and D with ` / `. The marker decodes to the row's signals |
| ResultTable.TableRows | static/js/app.js:148 | (definition) one row per bar of `stock_data`, in order. Stated by TableHtmlRows |
| ResultTable.RowsHtmlConcat | static/js/app.js:148-179 | what the loop appends for the first `n` bars is their row templates, one after another |
| ResultTable.TableHtml | static/js/app.js:127-182 | (definition) the table the handler builds. Stated by TableHtmlRows |
| ResultTable.TableHtmlRows | static/js/app.js:127-182 | the table is the header row, then exactly one row template per bar in `stock_data` order, then the closing tag |
| ResultTable.AppendRows | static/js/app.js:148-179 | the `forEach` loop appends the rows of all bars to what is already there |
| ResultTable.DisplayTable | static/js/app.js:127-182 | the built HTML is the specified table |
| Charts.DestroyEvents | static/js/app.js:72-79 | (definition) the destructions `destroyAllCharts` performs visiting slots in order. Stated by DestroyEventsSpec |
| Charts.DestroyEventsSpec | static/js/app.js:72-79 | visiting distinct slots destroys only. A slot is destroyed iff it is visited and occupied, and at most once |
| Charts.ChartSet.constructor | static/js/app.js:7-14 | all six slots start `null` |
| Charts.ClearFirstSpec | static/js/app.js:72-79 | the visited slots are `null`, the unvisited ones keep their chart, and no slot is lost |
| Charts.ChartSet.Clear | static/js/app.js:74-77 | an occupied slot has its chart destroyed and becomes `null`. An empty slot is untouched. No other slot changes |
| Charts.ChartSet.DestroyAll | static/js/app.js:72-79 | afterwards every slot is `null`. The log gains one `destroy()` per occupied slot, in slot order. With DestroyEventsSpec: each chart that was in a slot is destroyed exactly once, and empty slots log nothing |
| Charts.ChartSet.Create | static/js/app.js:59-64 | the slot receives a fresh chart, and no other slot changes |
| Dashboard.BuildPayload | static/js/app.js:26-28 | `symbol` is always present. `start_date` and `end_date` are present iff their trimmed inputs are non-empty. There are no other keys |
| Dashboard.PayloadWindow | static/js/app.js:26-28 | the server reads back exactly the fields the page filled in. The symbol is accepted. A payload without a start date gets the default window, whatever end date was typed |
| Dashboard.Percent | static/js/app.js:91-92 | (definition) `x ? fmt(x) + '%' : 'N/A'` for a number. Stated by PercentNotAvailable |
| Dashboard.PercentNotAvailable | static/js/app.js:91-92 | with a `toFixed`-like formatter, the cell is `N/A` iff the value is 0, and otherwise ends in `%` |
| Dashboard.BasicInfoHtml | static/js/app.js:89-99 | (definition) the `displayBasicInfo` template with the two `Percent` cells. Stated through PercentNotAvailable |
| Dashboard.ErrorHtml | static/js/app.js:49 | (definition) the red notice carrying the server's `error` text |
| Dashboard.DestroyBeforeCreate | static/js/app.js:54-64 | in a successful render, every destruction comes before every creation, and all six slots are created |
| Dashboard.Page.constructor | static/js/app.js:2-14 | the page starts with empty regions and six empty slots |
| Dashboard.Page.CreateAll | static/js/app.js:59-64 | afterwards all six slots hold fresh charts, created in declaration order |
| Dashboard.Page.OnQuery | static/js/app.js:16-69 | see the per-branch breakdown below the table |
| Dashboard.Page.ShowReply | static/js/app.js:35-68 | the part after the request is sent: for each kind of answer, the same end state as the breakdown below, with alerts and requests unchanged and a failure or error leaving the table as it was |
| FormGuard.MarkOf | static/js/app.js:295-307 | an input is marked as an error iff its trimmed value is empty |
| FormGuard.MarkIffBlank | static/js/app.js:295-307 | an input is marked iff its value is all white space, and the message is `<name> cannot be empty` |
| FormGuard.FlagAfter | static/js/app.js:294-308 | (definition) the flag after the loop, each input overwriting it. Stated by FlagIsLastField |
| FormGuard.FlagIsLastField | static/js/app.js:294-308 | the flag after the loop says whether the last input is filled. With no inputs it keeps its old value |
| FormGuard.RemarkSpec | static/js/app.js:294-308 | every input carries the mark of its own value, and other entries are unchanged |
| FormGuard.EarlierBlankFieldAccepted | static/js/app.js:294-312 | an empty username followed by a filled password leaves the flag `true`, so the form is submitted |
| FormGuard.CorrectedIsStricter | static/js/app.js:294-312 | for a form with at least one input, whatever the all-fields check lets through, the loop as written lets through too |
| FormGuard.Form.constructor | static/js/app.js:289 | the flag starts `undefined` and no input is marked |
| FormGuard.Form.Submit | static/js/app.js:290-313 | the flag ends as "the last input is filled", or unchanged when there are no inputs. Every input gets its mark. Submission is prevented iff the flag is not `true` |
| FormGuard.Form.SubmitAllFilled | static/js/app.js:290-313 | corrected handler: the flag is `true` iff every input is filled, with the same marks. Submission is prevented iff some input is blank |

`Dashboard.Page.OnQuery`, branch by branch:
- **Blank symbol:** one alert, no request, and nothing else changes.
- **Otherwise:** exactly the built payload is requested. Then:
  - **Failure:** the generic notice and the analysis fallback are shown. The table is empty and the charts are untouched.
  - **Truthy `error`:** the message is shown and the analysis is cleared. The table is empty and no chart is destroyed or created.
  - **Empty `error`:** all charts are destroyed, then the generic notice is shown.
  - **Result:** all old charts are destroyed. Then the basic info, analysis and table are shown, and six fresh charts are created.

## Left out

**Collaborators and I/O**
- The network: `fetch('/query')`, the status check and `response.json()` become the `Reply` the page receives for a payload.
- The market-data download (`yf.Ticker(...).history`) is the `history` parameter.
- `datetime.now()` is the `now` parameter, in seconds.
- TA-Lib (`MA`, `STOCH`, `MACD`, `RSI`) is the `talib` parameter. It returns one value per bar.
- Volatility and percent change (app.py:56-58) are floating-point arithmetic. They arrive as numbers.
- `get_gpt_analysis` (the prompt, the OpenAI call and its own error text) is the `analyse` parameter.
- `toFixed(2)` and `toLocaleString()` are the `fmt` and `group` parameters. Only the properties `FixedFormatter` names are assumed, and only in the lemmas that say so.
- JavaScript `Date` parsing in `formatDate` depends on time zone and locale. The calendar fields arrive already parsed.

**Things the model does not represent**
- The conversion of the server's price frame (`reset_index().to_dict`) into the client's bar records. Dates, keys and field names on the wire are not represented.
- JSON and dict key order: the indicator and signal dicts are maps keyed by datatypes.
- A NaN volatility is serialised as a bare `NaN`, which the client cannot parse as JSON. On the client that is the `Failed` reply. A history of one or two bars gives it: `pct_change` leaves at most one value, and `std()` with ddof=1 (divisor n-1) is NaN for one value (app.py:56).
- Floating point: float64 values are modelled as exact reals with no infinities. `percent_change` is `inf` when the first close is 0 and the last is not, and NaN when both are 0 (app.py:58); `jsonify` then emits `Infinity` or `NaN`, which the client cannot parse either.
- DOM work and Chart.js: borders, the inserted error paragraph, the `nextElementSibling` removal, and the canvas and chart options of the six `create…Chart` functions. A chart is a handle with an identity, and its `destroy()` call is an entry in the slot table's event log.
- The buttons' loading class and `setTimeout` (static/js/app.js:315-320, 353-358): timers are not modelled.
- Flask routing, login and logout, CSRF, password hashing, static files, form.py and model.py: they are not part of this model.

**Deliberately weaker contracts**
- Dashboard.Page.OnQuery: only the throw caused by a falsy `error` is modelled. A malformed result body that makes `displayTable` or a chart constructor throw part-way is not.
- Dashboard.Page.OnQuery: the `await`ed exchange (static/js/app.js:35-45) is one step. A second click whose handler runs while the first awaits, and the interleaving of their writes to the page and the slots, is not modelled.
- Charts.ChartSet.DestroyAll: `for...in` is taken to visit the slots in the order the object literal declares them. `destroy()` is stated through the event log, not as a change to the chart object itself.
- DateFormat.FormatDate: years are taken as non-negative. `getFullYear()` can be negative, and `String(-1)` gives `-1`, but bar dates never are.
- DateFormat.FormatDate: an invalid date (`new Date` failing to parse) gives `NaNNaNNaN` in the source. The model's calendar fields are always numbers, so that case is not represented.
- FormGuard.CorrectedIsStricter: a form with no inputs is the exception. The all-fields check lets it through, while the loop as written leaves the flag `undefined` on a first submission and so prevents it (static/js/app.js:289, 310).
- StockQuery.QueryStock: the errors modelled are the two that `fetch_stock_data` raises. Other exceptions inside the `try` come from collaborators that are parameters here.

## Findings

| source | as written | input that shows it | evidently intended | confidence | as-written member | corrected member |
|---|---|---|---|---|---|---|
| static/js/app.js:294-312 | each input overwrites `isSignupValid` (and `isLoginValid` at 330-349), so only the last input decides whether the form is sent | username `""` then password `"secret"`: the flag ends `true` and the form is submitted with an empty username | the submission is prevented when any input is blank | not executed | FormGuard.EarlierBlankFieldAccepted | FormGuard.Form.SubmitAllFilled |
