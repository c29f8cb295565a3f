# Forecast dashboard: the chart synchroniser

This project models the browser side of a SARIMA forecast dashboard. The part
modelled is `updateChart` in `static/app.js` and its helpers:

- `toInputDate`, the date formatter;
- `showWarning` and `hideWarning`, the banner controller;
- the chart slot `chart`.

With the DOM and the network taken away, `updateChart` is a deterministic state
transition. Its state is the two date inputs (value, `min`, `max`), the page
container that holds the warning banner, and the canvas with its single chart
slot. Its input is the variable name and the forecast series the server
returned.

Modules, leaves first:

- `Options`: the optional-value datatype.
- `Dates`: day-precision dates in the `full-date` form of section 5.6 of
  RFC 3339 (`YYYY-MM-DD`, read as UTC midnight). This module holds the
  formatter, the parser behind `new Date(str)`, and the Invalid Date. It proves
  the round trips between formatter and parser. It also proves that the triple
  order agrees with the millisecond time values JavaScript compares.
- `Text`: `includes` and `toLowerCase`.
- `Units`: the unit label inferred from the variable name, with an ordered
  rule table as an independent reference.
- `Series`: forecast points, `Math.min`/`Math.max` over their dates, and the
  order-keeping filter.
- `Banner`: the page container and the banner operations.
- `Chart`: the chart slot and the construct/destroy contract of the charting
  library.
- `Dashboard`: `updateChart` itself (`Dashboard.UpdateChart`, which hides the
  banner, formats the bounds and hands over to `Dashboard.Synchronise`) and
  the properties of one update.

Forecast values are an opaque type parameter `V` carried through the filter.
Dates in the series are valid days with years 1 to 9999, which is what the
server's `str(date)` produces.

An empty series is not excluded by a precondition. `Math.min()` of nothing is
`Infinity`, `new Date(Infinity)` is an Invalid Date, and `toISOString` throws a
`RangeError` at `static/app.js:63`. The model returns that outcome. At that
point the banner has already been hidden and nothing else has changed.

The code does not clamp user-entered field values to the series bounds: a
start before the earliest date only raises the warning, and an end after the
latest date is kept silently (`Dashboard.UpdateResolvesFields`).

## Model

| member | source | states |
|---|---|---|
| `Dates.ParseFormatDate` | static/app.js:5-7 | Formatting a day as `YYYY-MM-DD` and parsing it back gives the same day. |
| `Dates.FormatDate` | static/app.js:6 | The text of a day has the `YYYY-MM-DD` shape (ten characters, dashes at 4 and 7, digits elsewhere) and contains no `T`, so the split at `T` keeps all of it. |
| `Dates.ParseDate` | static/app.js:72-83 | `new Date(str)` on a field value accepts only `YYYY-MM-DD` text, and any text it accepts is exactly the formatted text of its day, so no other spelling is read. |
| `Dates.FiveDigitYearIsInvalid` | static/app.js:79-83 | A field value with a five-digit year, such as `10000-01-01`, is read as an Invalid Date. |
| `Dates.ToInputDate` | static/app.js:5-7 | `toInputDate` throws exactly on an Invalid Date. Of a UTC-midnight day, `toISOString().split('T')[0]` is that day's `full-date` text. |
| `Dates.ToInputDateIsFullDate` | static/app.js:5-7 | The text `toInputDate` gives a day parses back to the same day. |
| `Dates.SplitFirst` | static/app.js:6 | `split(sep)[0]` is the prefix before the first separator, or the whole text when there is none. |
| `Dates.ParseInstant` | static/app.js:72 | `new Date(str)` is a day exactly when the text parses, and that day formats back to the text; otherwise it is an Invalid Date. |
| `Dates.BeforeMatchesTimeValue` | static/app.js:72-84 | Comparing dates as triples agrees with comparing their UTC-midnight millisecond time values, in both directions, and equal time values mean equal days. |
| `Series.Earliest` | static/app.js:59-60 | The minimum is one of the series' dates, and no date of the series is earlier. |
| `Series.Latest` | static/app.js:59-61 | The maximum is one of the series' dates, and no date of the series is later. |
| `Series.EarliestNotAfterLatest` | static/app.js:60-61 | The minimum of a non-empty series is never after its maximum. |
| `Series.ExtremesAreUnique` | static/app.js:60-61 | A date is the earliest (latest) of a series exactly when it is what `Earliest` (`Latest`) returns. |
| `Series.MinInstant` | static/app.js:60 | `new Date(Math.min(...dates))` is an Invalid Date exactly for an empty series; otherwise it is the earliest date. |
| `Series.MaxInstant` | static/app.js:61 | `new Date(Math.max(...dates))` is an Invalid Date exactly for an empty series; otherwise it is the latest date. |
| `Series.Filter` | static/app.js:80-84 | `filter` keeps only points that pass the test, and every point that passes. The result is an order-preserving subsequence of the input. Each passing point occurs as many times as in the input, and a failing point not at all. |
| `Series.FilterExact` | static/app.js:80-84 | A point of the input is in the result exactly when its date passes the test. |
| `Series.FilterTwice` | static/app.js:77-85 | Filtering by `>= start` and then by `<= end` equals one filter over the inclusive range. |
| `Series.FilterKeepsNone` | static/app.js:77-85 | A test no point passes leaves an empty series. |
| `Series.InvalidBoundKeepsNothing` | static/app.js:79-84 | An Invalid Date as either bound of the range keeps no point, because every comparison with it is false. |
| `Series.FilterKeepsAll` | static/app.js:77-85 | A test every point passes keeps the whole series unchanged. |
| `Text.ToLower` | static/app.js:98-100 | The lower-cased name has the same length, contains no upper-case letter, and agrees with the original up to case at every position. |
| `Text.Includes` | static/app.js:98-100 | `includes` is true exactly when the needle occurs at some index. |
| `Units.UnitFor` | static/app.js:97-102 | For every name, the branch chain picks the unit of the first matching rule of the ordered table temp→°C, sea→m, msl→m, with an empty fallback. So the unit is °C exactly when the lower-cased name contains "temp", and m exactly when it lacks "temp" and contains "sea" or "msl". |
| `Units.UnitForIgnoresCase` | static/app.js:98-100 | A name and its lower-cased form get the same unit. |
| `Units.TemperatureRuleComesFirst` | static/app.js:98-101 | Any name containing both "temp" and "sea" gets °C: the temperature rule is tried before the sea rule. |
| `Units.UnitOfTemp2m` | static/app.js:97-99 | "Temp2m" gets °C. |
| `Units.UnitOfMslp` | static/app.js:100-101 | "MSLP" gets m. |
| `Units.UnitOfWind10m` | static/app.js:97-102 | "Wind10m" gets no unit. |
| `Units.UnitOfSeatemp` | static/app.js:98-101 | "seatemp" gets °C, because the temperature rule is tried first. |
| `Banner.FindBanner` | static/app.js:22-35 | `getElementById('alertBox')` finds the first banner of the page, or nothing when the page holds none. |
| `Banner.ShowWarning` | static/app.js:21-32 | The banner is displayed with the message. An existing banner is reused in place at the same position. A missing one is created at the third child position, or appended when there are fewer children. The banner count becomes one, or stays what it was. The other children are unchanged. |
| `Banner.HideWarning` | static/app.js:34-39 | No banner is displayed afterwards. An existing banner keeps its place and text. Without a banner, the page is unchanged. |
| `Banner.BannerOperationsKeepOneBanner` | static/app.js:21-39 | From a page with at most one banner, both operations leave at most one, and showing leaves exactly one. |
| `Banner.ShowWarningReusesBanner` | static/app.js:22-30 | A second `showWarning` creates nothing. It updates the text of the same banner. |
| `Chart.Release` | static/app.js:91-94 | The slot is cleared. An existing chart is destroyed, appended once to the destroy log and no longer live. Ownership is preserved. |
| `Chart.Mount` | static/app.js:106 | For a construction the library accepts, a new chart with the given configuration becomes live and fills the slot. On an owned canvas its id was never live or destroyed, and mounting into an empty slot leaves the new chart as the only live one. |
| `Chart.Replace` | static/app.js:91-106 | On an owned canvas the library accepts the construction that follows the release. After replacement, exactly the new chart is live, with the given configuration. Its id was never live or destroyed. The previous chart, if any, was destroyed exactly once. |
| `Chart.Construct` | static/app.js:106 | The library refuses a new chart exactly while some chart is still alive on the canvas. Otherwise the new chart, with a fresh id, fills the slot and is the only live one, and the destroy log is unchanged. |
| `Chart.ConstructWithoutReleaseRefused` | static/app.js:91-94 | Without the destroy step, the construction at static/app.js:106 would be refused, because the previous chart is still alive on the canvas. |
| `Chart.ReplaceTwice` | static/app.js:91-106 | Two replacements in a row leave one live chart. The first replacement's chart is destroyed once. |
| `Dashboard.OrElse` | static/app.js:65-69 | The or-default keeps a non-empty field value and otherwise takes the fallback. With a non-empty fallback, which `toInputDate` always gives, the resolved value is never empty. |
| `Dashboard.ApplyRange` | static/app.js:77-85 | With both fields non-empty, which always holds after resolution, the two guarded filters equal one inclusive range filter. With both empty the series is kept whole. |
| `Dashboard.WarnIfEarly` | static/app.js:72-74 | An effective start before the earliest date displays the warning naming that date. Otherwise the page is untouched. The other children stay, and no second banner appears. |
| `Dashboard.ForecastChart` | static/app.js:87-117 | The chart is a monthly line chart labelled `<variable> Forecast` with the inferred unit. Its labels and values are the dates and values of the filtered points, aligned index by index. |
| `Dashboard.UpdateChart` | static/app.js:41-133 | The update throws exactly when the series is empty. It then leaves everything as it was except the hidden banner. |
| `Dashboard.StartWarning` | static/app.js:73 | The warning text contains the formatted earliest date. |
| `Dashboard.BoundTexts` | static/app.js:59-64 | On a non-empty series, `toInputDate` of `Math.min`/`Math.max` over the dates succeeds and gives the `full-date` text of the earliest and the latest point. |
| `Dashboard.UpdateSetsBounds` | static/app.js:59-68 | Both fields' `min` become the earliest series date and both `max` the latest, whatever they were before. The bound texts parse back to those dates. |
| `Dashboard.UpdateResolvesFields` | static/app.js:65-69 | An empty start field becomes the earliest date and an empty end field the latest. A non-empty field keeps exactly the user's text. Afterwards neither field is empty, so both range filters apply. |
| `Dashboard.UpdateWarnsOnEarlyStart` | static/app.js:42-74 | A banner naming the earliest date is displayed exactly when the effective start is a day before the earliest date. Otherwise none is displayed. |
| `Dashboard.EmptyStartNeverWarns` | static/app.js:65-74 | With an empty start field there is never a warning. |
| `Dashboard.EarlyUserStartWarns` | static/app.js:72-74 | A user start that is a real day before the earliest date is always reported. |
| `Dashboard.UpdateChartsRange` | static/app.js:77-88 | The chart's labels and values are aligned index by index with the points in the inclusive effective range. Those points keep their original order, an input point is charted exactly when its date lies in the range, and it is charted as many times as it occurs in the series. |
| `Dashboard.StartAfterEndChartsNothing` | static/app.js:77-85 | A start after the end is not rejected. Whether the effective start and end were typed by the user or defaulted to a series bound, the update completes, and when the start is a day after the end it charts no points. |
| `Dashboard.UpdateReplacesChart` | static/app.js:90-111 | Afterwards exactly one chart is live. It is a new line chart labelled `<variable> Forecast` with the inferred unit. The previous chart, if any, was destroyed exactly once. |
| `Dashboard.UpdateKeepsWellFormed` | static/app.js:41-133 | Every update, completed or thrown, keeps at most one banner and a slot that owns the only live chart. |
| `Dashboard.UpdateFieldsSettle` | static/app.js:63-69 | A second update with the same series leaves the date fields as the first left them. |
| `Dashboard.InitialView` | static/app.js:3 | The page starts with no banner and an empty chart slot, which is a well-formed view. |
| `Dashboard.WorkedExample` | static/app.js:59-88 | The series 2024-01-01/10, 2024-02-01/12, 2024-03-01/9, with the start field empty and the end field 2024-02-01, gives start "2024-01-01", no warning, and a chart of the first two points. |

## Left out

- The HTTP calls `axios.get('/')` and `axios.post('/forecast')` (static/app.js:10, 53) and their failure paths are network I/O. The fetched series is an input of `Dashboard.UpdateChart`, and `periods` only reaches the server, so it does not appear.
- `fetchVariables` and the option list (static/app.js:9-19), and the load and click wiring (static/app.js:135-139), are one-shot page plumbing.
- Chart.js rendering, colours and time-axis internals (static/app.js:105-132) belong to a foreign library. Only construct and destroy are modelled, plus the configuration values the dashboard chooses.
- Two `updateChart` calls can overlap while their requests are outstanding, and they race. The model is one complete synchronisation at a time.
- The fields are read before the request is awaited (static/app.js:49-50) and written after it (static/app.js:65, 69), so an edit made while the request is outstanding is overwritten. The model reads and writes the fields in one step.
- `main.py` is left out entirely. It wraps pickled SARIMA models (library calls and floating point) behind a thin 404 branch.
- `Text.ToLower` folds only `A`–`Z`. JavaScript's `toLowerCase` also maps other characters, but none of them lower-case to a letter of "temp", "sea" or "msl", so the unit is the same.
- `Dates.ParseDate` accepts only real days in the `YYYY-MM-DD` form with a four-digit year. A date input's value is a valid date string or empty, so a day past the end of its month never reaches `updateChart`. Such a value may, however, carry a year of five or more digits, such as `10000-01-01`. The model reads that text as an Invalid Date (`Dates.FiveDigitYearIsInvalid`): as an end it keeps no points, and as a start it keeps no points and never warns (`Series.InvalidBoundKeepsNothing`). What `new Date` makes of that spelling depends on the engine, so the model does not follow any one engine there.
- Years outside 1–9999 are left out. Python's `date` has no year 0 and a date input rejects it; `toISOString` writes years past 9999 in the six-digit extended form. The server never produces either, and the model reads `0000-01-01` as an Invalid Date.
- `Banner.HideWarning` hides only the first banner, as `getElementById` does. "No banner displayed" is stated of that banner, and it covers the whole page only under the at-most-one-banner invariant that `Dashboard.UpdateKeepsWellFormed` proves.
- `Math.min(...dates)` on very long series can exceed the engine's argument limit. That limit is not modelled.
