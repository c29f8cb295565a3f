/**
 * `updateChart`: one synchronisation of the forecast view. The state is the two
 * date fields, the page container (for the warning banner) and the chart
 * canvas; the input is the variable name and the series the forecast endpoint
 * returned. The fetch itself is not modelled: its result is the `series` input.
 */
module Dashboard {
  import opened Options
  import opened Dates
  import opened Text
  import opened Series
  import opened Banner
  import opened Chart
  import opened Units

  /** An `<input type="date">`: its value (empty when unset) and its `min`/`max` bounds. */
  datatype DateField = DateField(value: string, min: string, max: string)

  /** Everything `updateChart` reads or writes besides the network. */
  datatype View<V> = View(start: DateField, end: DateField, page: seq<Node>, canvas: Canvas<V>)

  /** Whether the synchronisation ran to the end or threw. */
  datatype Outcome = Completed | RangeError

  datatype Step<V> = Step(view: View<V>, outcome: Outcome)

  /** What every reachable view satisfies: at most one banner, and the slot owns the only live chart. */
  predicate WellFormed<V>(v: View<V>) {
    AtMostOneBanner(v.page) && Owned(v.canvas)
  }

  /** The page as first loaded: empty fields, no banner, no chart. */
  function InitialView<V>(page: seq<Node>): (v: View<V>)
    requires forall j :: 0 <= j < |page| ==> !page[j].AlertBox?
    ensures WellFormed(v)
  {
    NoBanners(page);
    View(DateField("", "", ""), DateField("", "", ""), page, EmptyCanvas())
  }

  const WarningPrefix: string := "\U{26A0}\U{FE0F} Start date is before forecasted data ("

  /** The banner text for a start date before `earliest` (already formatted). */
  function StartWarning(earliest: string): (msg: string)
    ensures Includes(msg, earliest)
  {
    IncludesSplice(WarningPrefix, earliest, ")");
    WarningPrefix + earliest + ")"
  }

  /**
   * JavaScript's or-default on strings, where the empty string is the only
   * falsy one. With a non-empty fallback the result is never empty.
   */
  function OrElse(raw: string, fallback: string): (r: string)
    ensures raw != "" ==> r == raw
    ensures raw == "" ==> r == fallback
    ensures fallback != "" ==> r != ""
  {
    if raw != "" then raw else fallback
  }

  /**
   * The manual range filter: each bound applies only when its field is
   * non-empty. With both fields set, which always holds once they are
   * resolved, the two filters are one inclusive range filter.
   */
  function ApplyRange<V(==)>(data: seq<Point<V>>, startValue: string, endValue: string): (r: seq<Point<V>>)
    ensures startValue != "" && endValue != "" ==>
            r == Filter(data, Between(ParseInstant(startValue), ParseInstant(endValue)))
    ensures startValue == "" && endValue == "" ==> r == data
  {
    var lo := ParseInstant(startValue);
    var hi := ParseInstant(endValue);
    FilterTwice(data, lo, hi);
    var fromStart := if startValue != "" then Filter(data, From(lo)) else data;
    if endValue != "" then Filter(fromStart, Until(hi)) else fromStart
  }

  /**
   * The chart configuration for a filtered series: a monthly line chart named
   * after the variable, with the inferred unit, whose labels and values are
   * the filtered points' dates and values, index by index.
   */
  function ForecastChart<V>(variable: string, filtered: seq<Point<V>>): (config: ChartConfig<V>)
    ensures |config.labels| == |config.values| == |filtered|
    ensures forall i :: 0 <= i < |filtered| ==> Point(config.labels[i], config.values[i]) == filtered[i]
    ensures config.kind == "line" && config.timeUnit == "month"
    ensures config.seriesLabel == variable + " Forecast" && config.yTitle == UnitFor(variable)
  {
    ChartConfig("line", DatesOf(filtered), ValuesOf(filtered), variable + " Forecast", "month", UnitFor(variable))
  }

  /** A date field after an update: bounds overwritten, value kept or defaulted. */
  function ResolveField(f: DateField, fallback: string, minText: string, maxText: string): DateField {
    DateField(OrElse(f.value, fallback), minText, maxText)
  }

  /**
   * The start-date check (static/app.js:72-74): an early start displays
   * the warning naming the earliest date; otherwise the page is untouched.
   * Either way the other children stay and no second banner appears.
   */
  function WarnIfEarly(page: seq<Node>, startValue: string, minD: Instant, minText: string): (r: seq<Node>)
    ensures InstantLess(ParseInstant(startValue), minD) ==> VisibleWarning(r) == Some(StartWarning(minText))
    ensures !InstantLess(ParseInstant(startValue), minD) ==> r == page
    ensures Others(r) == Others(page)
    ensures AtMostOneBanner(page) ==> AtMostOneBanner(r)
  {
    if InstantLess(ParseInstant(startValue), minD) then ShowWarning(page, StartWarning(minText)) else page
  }

  /**
   * The rest of an update once both bounds have been formatted: resolve both
   * fields, warn about an early start, filter, and replace the chart.
   */
  function Synchronise<V(==)>(v: View<V>, variable: string, series: seq<Point<V>>,
                              minD: Instant, minText: string, maxText: string): View<V> {
    var start := ResolveField(v.start, minText, minText, maxText);
    var end := ResolveField(v.end, maxText, minText, maxText);
    View(start, end,
         WarnIfEarly(v.page, start.value, minD, minText),
         Replace(v.canvas, ForecastChart(variable, ApplyRange(series, start.value, end.value))))
  }

  /**
   * `updateChart()` after the fetch has returned `series`: hide the banner,
   * take the date bounds, and synchronise. `toInputDate` of the bounds throws
   * when the series is empty; the banner has been hidden by then and nothing
   * else changed.
   */
  function UpdateChart<V(==)>(v: View<V>, variable: string, series: seq<Point<V>>): (r: Step<V>)
    ensures r.outcome == RangeError <==> |series| == 0
    ensures r.outcome == RangeError ==> r.view == v.(page := HideWarning(v.page))
  {
    var hidden := v.(page := HideWarning(v.page));
    var minD := MinInstant(DatesOf(series));
    var maxD := MaxInstant(DatesOf(series));
    match (ToInputDate(minD), ToInputDate(maxD))
    case (Some(minText), Some(maxText)) =>
      Step(Synchronise(hidden, variable, series, minD, minText, maxText), Completed)
    case _ =>
      Step(hidden, RangeError)
  }

  // ---------------------------------------------------------------------------
  // Properties of one update
  // ---------------------------------------------------------------------------

  /** The earliest and latest dates of a non-empty series. */
  function EarliestOf<V>(series: seq<Point<V>>): Date
    requires |series| > 0
  {
    Earliest(DatesOf(series))
  }

  function LatestOf<V>(series: seq<Point<V>>): Date
    requires |series| > 0
  {
    Latest(DatesOf(series))
  }

  /** The text `toInputDate` gives the bounds of a non-empty series. */
  lemma BoundTexts<V>(series: seq<Point<V>>)
    requires |series| > 0
    ensures ToInputDate(MinInstant(DatesOf(series))) == Some(FormatDate(EarliestOf(series)))
    ensures ToInputDate(MaxInstant(DatesOf(series))) == Some(FormatDate(LatestOf(series)))
  {
    ToInputDateIsFullDate(EarliestOf(series));
    ToInputDateIsFullDate(LatestOf(series));
  }

  /** On a non-empty series the update completes: it is the synchronisation with the series' bounds. */
  lemma UpdateCompletes<V>(v: View<V>, variable: string, series: seq<Point<V>>)
    requires |series| > 0
    ensures UpdateChart(v, variable, series) ==
            Step(Synchronise(v.(page := HideWarning(v.page)), variable, series, At(EarliestOf(series)),
                             FormatDate(EarliestOf(series)), FormatDate(LatestOf(series))), Completed)
  {
    BoundTexts(series);
  }

  /**
   * Both fields' bounds become the series' earliest and latest dates, whatever
   * they were before; the bound texts read back as those dates.
   */
  lemma UpdateSetsBounds<V>(v: View<V>, variable: string, series: seq<Point<V>>)
    requires |series| > 0
    ensures var w := UpdateChart(v, variable, series).view;
            && w.start.min == w.end.min == FormatDate(EarliestOf(series))
            && w.start.max == w.end.max == FormatDate(LatestOf(series))
            && ParseInstant(w.start.min) == At(EarliestOf(series))
            && ParseInstant(w.start.max) == At(LatestOf(series))
  {
    UpdateCompletes(v, variable, series);
    ParseFormatDate(EarliestOf(series));
    ParseFormatDate(LatestOf(series));
  }

  /**
   * An empty field takes the series' bound; a non-empty field keeps exactly
   * what the user entered. Either way neither field is empty afterwards, so
   * both range filters apply.
   */
  lemma UpdateResolvesFields<V>(v: View<V>, variable: string, series: seq<Point<V>>)
    requires |series| > 0
    ensures var w := UpdateChart(v, variable, series).view;
            && (v.start.value == "" ==> w.start.value == FormatDate(EarliestOf(series)))
            && (v.start.value != "" ==> w.start.value == v.start.value)
            && (v.end.value == "" ==> w.end.value == FormatDate(LatestOf(series)))
            && (v.end.value != "" ==> w.end.value == v.end.value)
            && w.start.value != "" && w.end.value != ""
  {
    UpdateCompletes(v, variable, series);
  }

  /**
   * The banner ends up displayed, with a text naming the earliest date, exactly
   * when the effective start is a day before the earliest date; otherwise no
   * banner is displayed.
   */
  lemma UpdateWarnsOnEarlyStart<V>(v: View<V>, variable: string, series: seq<Point<V>>)
    requires |series| > 0
    ensures var w := UpdateChart(v, variable, series).view;
            var early := InstantLess(ParseInstant(w.start.value), At(EarliestOf(series)));
            && (early ==> VisibleWarning(w.page) == Some(StartWarning(FormatDate(EarliestOf(series)))))
            && (early ==> Includes(VisibleWarning(w.page).value, FormatDate(EarliestOf(series))))
            && (!early ==> VisibleWarning(w.page) == None)
  {
    UpdateCompletes(v, variable, series);
  }

  /** With the start field empty there is never a warning: the default start is the earliest date itself. */
  lemma EmptyStartNeverWarns<V>(v: View<V>, variable: string, series: seq<Point<V>>)
    requires |series| > 0 && v.start.value == ""
    ensures VisibleWarning(UpdateChart(v, variable, series).view.page) == None
  {
    UpdateCompletes(v, variable, series);
    ParseFormatDate(EarliestOf(series));
    UpdateWarnsOnEarlyStart(v, variable, series);
  }

  /** A user start that is a real day before the earliest date is reported. */
  lemma EarlyUserStartWarns<V>(v: View<V>, variable: string, series: seq<Point<V>>, d: Date)
    requires |series| > 0 && ParseDate(v.start.value) == Some(d) && Before(d, EarliestOf(series))
    ensures VisibleWarning(UpdateChart(v, variable, series).view.page).Some?
  {
    UpdateWarnsOnEarlyStart(v, variable, series);
  }

  /** The chart is configured with the series filtered to the effective range. */
  lemma UpdateChartConfig<V>(v: View<V>, variable: string, series: seq<Point<V>>)
    requires |series| > 0
    ensures var w := UpdateChart(v, variable, series).view;
            var lo, hi := ParseInstant(w.start.value), ParseInstant(w.end.value);
            && w.canvas.slot.Some?
            && w.canvas.slot.value.config == ForecastChart(variable, Filter(series, Between(lo, hi)))
  {
    UpdateCompletes(v, variable, series);
    var w := UpdateChart(v, variable, series).view;
    assert w.start.value != "" && w.end.value != "";
  }

  /**
   * The chart shows exactly the points whose date lies in the inclusive
   * effective range, in their original order, with labels and values aligned.
   */
  lemma UpdateChartsRange<V>(v: View<V>, variable: string, series: seq<Point<V>>)
    requires |series| > 0
    ensures var w := UpdateChart(v, variable, series).view;
            var lo, hi := ParseInstant(w.start.value), ParseInstant(w.end.value);
            var shown := Filter(series, Between(lo, hi));
            var config := w.canvas.slot.value.config;
            && w.canvas.slot.Some?
            && |config.labels| == |config.values| == |shown|
            && (forall i :: 0 <= i < |shown| ==> Point(config.labels[i], config.values[i]) == shown[i])
            && IsSubsequence(shown, series)
            && (forall p | p in series :: multiset(shown)[p] == (if Passes(Between(lo, hi), p.date) then multiset(series)[p] else 0))
            && (forall i :: 0 <= i < |series| ==> (series[i] in shown <==> Passes(Between(lo, hi), series[i].date)))
  {
    UpdateChartConfig(v, variable, series);
    var w := UpdateChart(v, variable, series).view;
    var lo, hi := ParseInstant(w.start.value), ParseInstant(w.end.value);
    FilterExact(series, Between(lo, hi));
  }

  /**
   * A start after the end is not rejected: the update completes and charts
   * nothing. This holds whichever way the effective values arose, typed by the
   * user or defaulted to a series bound.
   */
  lemma StartAfterEndChartsNothing<V>(v: View<V>, variable: string, series: seq<Point<V>>)
    requires |series| > 0
    ensures UpdateChart(v, variable, series).outcome == Completed
    ensures var w := UpdateChart(v, variable, series).view;
            var lo, hi := ParseInstant(w.start.value), ParseInstant(w.end.value);
            lo.At? && hi.At? && Before(hi.date, lo.date) ==> w.canvas.slot.value.config.labels == []
  {
    UpdateChartConfig(v, variable, series);
    var w := UpdateChart(v, variable, series).view;
    var lo, hi := ParseInstant(w.start.value), ParseInstant(w.end.value);
    if lo.At? && hi.At? && Before(hi.date, lo.date) {
      forall i | 0 <= i < |series|
        ensures !Passes(Between(lo, hi), series[i].date)
      {
        ReversedRangeIsEmpty(lo.date, hi.date, series[i].date);
      }
      FilterKeepsNone(series, Between(lo, hi));
    }
  }

  /**
   * The old chart is destroyed (once) before the new one is created; afterwards
   * exactly one chart is alive, a line chart labelled `<variable> Forecast`
   * with the unit inferred from the name.
   */
  lemma UpdateReplacesChart<V>(v: View<V>, variable: string, series: seq<Point<V>>)
    requires |series| > 0 && Owned(v.canvas)
    ensures var c := UpdateChart(v, variable, series).view.canvas;
            && c.slot.Some?
            && c.live == {c.slot.value.id}
            && c.slot.value.id !in v.canvas.live
            && c.slot.value.config.kind == "line"
            && c.slot.value.config.seriesLabel == variable + " Forecast"
            && c.slot.value.config.yTitle == UnitFor(variable)
            && (v.canvas.slot.Some? ==> c.destroyed == v.canvas.destroyed + [v.canvas.slot.value.id])
            && (v.canvas.slot.None? ==> c.destroyed == v.canvas.destroyed)
  {
    UpdateCompletes(v, variable, series);
  }

  /** Every update, completed or thrown, keeps the view well formed: never two banners, never two live charts. */
  lemma UpdateKeepsWellFormed<V>(v: View<V>, variable: string, series: seq<Point<V>>)
    requires WellFormed(v)
    ensures WellFormed(UpdateChart(v, variable, series).view)
  {
    var hidden := HideWarning(v.page);
    assert AtMostOneBanner(hidden);
    if |series| > 0 {
      UpdateCompletes(v, variable, series);
      BannerOperationsKeepOneBanner(hidden, StartWarning(FormatDate(EarliestOf(series))));
    }
  }

  /** A second update with the same series leaves the fields as the first left them. */
  lemma UpdateFieldsSettle<V>(v: View<V>, variable: string, series: seq<Point<V>>)
    requires |series| > 0
    ensures var once := UpdateChart(v, variable, series).view;
            var twice := UpdateChart(once, variable, series).view;
            twice.start == once.start && twice.end == once.end
  {
    UpdateCompletes(v, variable, series);
  }

  // ---------------------------------------------------------------------------
  // The worked example: three monthly points, start empty, end 2024-02-01
  // ---------------------------------------------------------------------------

  const Jan: Date := Ymd(2024, 1, 1)
  const Feb: Date := Ymd(2024, 2, 1)
  const Mar: Date := Ymd(2024, 3, 1)

  function ExampleSeries(): seq<Point<int>> {
    [Point(Jan, 10), Point(Feb, 12), Point(Mar, 9)]
  }

  lemma ExampleTexts()
    ensures FormatDate(Jan) == "2024-01-01"
    ensures FormatDate(Feb) == "2024-02-01"
  {
    Pad2024();
    assert PadDecimal(1, 2) == "01" by {
      assert PadDecimal(0, 1) == "0";
    }
    assert PadDecimal(2, 2) == "02" by {
      assert PadDecimal(0, 1) == "0";
    }
  }

  lemma Pad2024()
    ensures PadDecimal(2024, 4) == "2024"
  {
    assert PadDecimal(2, 1) == "2";
    assert PadDecimal(20, 2) == "20";
    assert PadDecimal(202, 3) == "202";
  }

  lemma ExampleExtremes()
    ensures EarliestOf(ExampleSeries()) == Jan
    ensures LatestOf(ExampleSeries()) == Mar
  {
    assert DatesOf(ExampleSeries()) == [Jan, Feb, Mar];
    ExtremesAreUnique([Jan, Feb, Mar], Jan);
    ExtremesAreUnique([Jan, Feb, Mar], Mar);
  }

  lemma ExampleFilter()
    ensures Filter(ExampleSeries(), Between(At(Jan), At(Feb))) == [Point(Jan, 10), Point(Feb, 12)]
  {
    var t := Between(At(Jan), At(Feb));
    var series := ExampleSeries();
    ExampleTests();
    assert series[1..] == [Point(Feb, 12), Point(Mar, 9)];
    assert series[1..][1..] == [Point(Mar, 9)];
    FilterKeepsNone([Point(Mar, 9)], t);
    FilterCons(series[1..], t);
    FilterCons(series, t);
  }

  lemma ExampleShown()
    ensures DatesOf([Point(Jan, 10), Point(Feb, 12)]) == [Jan, Feb]
    ensures ValuesOf([Point(Jan, 10), Point(Feb, 12)]) == [10, 12]
  {
  }

  /** January and February lie in the range, March does not. */
  lemma ExampleTests()
    ensures Passes(Between(At(Jan), At(Feb)), Jan)
    ensures Passes(Between(At(Jan), At(Feb)), Feb)
    ensures !Passes(Between(At(Jan), At(Feb)), Mar)
  {
  }

  /**
   * The start field is filled with the earliest date, no warning is shown,
   * and the chart gets the first two points.
   */
  lemma WorkedExample(v: View<int>)
    requires v.start.value == "" && v.end.value == "2024-02-01"
    ensures var w := UpdateChart(v, "Temp2m", ExampleSeries()).view;
            && w.start.value == "2024-01-01"
            && VisibleWarning(w.page) == None
            && w.canvas.slot.value.config.labels == [Jan, Feb]
            && w.canvas.slot.value.config.values == [10, 12]
  {
    var series := ExampleSeries();
    var w := UpdateChart(v, "Temp2m", series).view;
    ExampleTexts();
    ExampleExtremes();
    EmptyStartNeverWarns(v, "Temp2m", series);
    UpdateResolvesFields(v, "Temp2m", series);
    assert w.start.value == "2024-01-01" && w.end.value == "2024-02-01";
    ParseFormatDate(Jan);
    ParseFormatDate(Feb);
    assert ParseInstant(w.start.value) == At(Jan) && ParseInstant(w.end.value) == At(Feb);
    UpdateChartConfig(v, "Temp2m", series);
    ExampleFilter();
    ExampleShown();
    var shown := [Point(Jan, 10), Point(Feb, 12)];
    assert w.canvas.slot.value.config == ForecastChart("Temp2m", shown);
  }
}
