/**
 * The single chart slot (`let chart = null`) and the construct/destroy contract
 * of the charting library. Rendering is not modelled: a chart is its
 * configuration plus an identity, and the canvas records which charts are live
 * and which were destroyed, in order.
 */
module Chart {
  import opened Options
  import opened Dates

  /** The configuration the dashboard gives the charting library (static/app.js:106-132), without colours. */
  datatype ChartConfig<V> = ChartConfig(
    kind: string,          // 'line'
    labels: seq<Date>,     // x values
    values: seq<V>,        // y values, aligned with labels
    seriesLabel: string,   // `${variable} Forecast`
    timeUnit: string,      // x-axis grouping, 'month'
    yTitle: string)        // inferred unit

  datatype ChartInstance<V> = ChartInstance(id: nat, config: ChartConfig<V>)

  /**
   * The slot the dashboard holds, the ids of the chart objects that are still
   * alive on the canvas, the ids destroyed so far (in order), and the id the
   * next construction will get.
   */
  datatype Canvas<V> = Canvas(slot: Option<ChartInstance<V>>, live: set<nat>, destroyed: seq<nat>, nextId: nat)

  /** The ids of the charts the slot refers to. */
  function SlotIds<V>(slot: Option<ChartInstance<V>>): set<nat> {
    match slot
    case Some(c) => {c.id}
    case None => {}
  }

  /**
   * The slot owns everything alive on the canvas, and refers to nothing
   * destroyed; no chart was destroyed twice; ids are never reused.
   */
  predicate Owned<V>(c: Canvas<V>) {
    && c.live == SlotIds(c.slot)
    && (forall i, j :: 0 <= i < j < |c.destroyed| ==> c.destroyed[i] != c.destroyed[j])
    && (forall i :: 0 <= i < |c.destroyed| ==> c.destroyed[i] < c.nextId && c.destroyed[i] !in c.live)
    && (forall id :: id in c.live ==> id < c.nextId)
  }

  /** Destroy the chart the slot holds, if any, and empty the slot (static/app.js:91-94). */
  function Release<V>(c: Canvas<V>): (r: Canvas<V>)
    ensures Owned(c) ==> Owned(r) && r.live == {}
    ensures r.slot.None? && r.live == c.live - SlotIds(c.slot)
    ensures r.nextId == c.nextId
    ensures c.slot.None? ==> r == c
    ensures c.slot.Some? ==> r.destroyed == c.destroyed + [c.slot.value.id]
  {
    match c.slot
    case None => c
    case Some(previous) =>
      Canvas(None, c.live - {previous.id}, c.destroyed + [previous.id], c.nextId)
  }

  /**
   * The slot accounting of a construction that the library accepts: a chart
   * with a fresh id becomes live and fills the slot (static/app.js:106).
   */
  function Mount<V>(c: Canvas<V>, config: ChartConfig<V>): (r: Canvas<V>)
    ensures r.slot == Some(ChartInstance(c.nextId, config))
    ensures r.live == c.live + {c.nextId}
    ensures r.destroyed == c.destroyed
    ensures r.nextId > c.nextId
    ensures Owned(c) ==> c.nextId !in c.live && c.nextId !in c.destroyed
    ensures Owned(c) && c.slot.None? ==> Owned(r) && r.live == {r.slot.value.id}
  {
    Canvas(Some(ChartInstance(c.nextId, config)), c.live + {c.nextId}, c.destroyed, c.nextId + 1)
  }

  /**
   * `new Chart` on the canvas (static/app.js:106). The library refuses, by
   * throwing, while a chart is still alive on that canvas; otherwise the new
   * chart is mounted and is the only one alive.
   */
  function Construct<V>(c: Canvas<V>, config: ChartConfig<V>): (r: Option<Canvas<V>>)
    ensures r.None? <==> c.live != {}
    ensures r.Some? ==> r.value.slot == Some(ChartInstance(c.nextId, config)) && r.value.live == {c.nextId}
    ensures r.Some? ==> r.value.destroyed == c.destroyed && r.value.nextId > c.nextId
  {
    if c.live != {} then None else Some(Mount(c, config))
  }

  /**
   * The dashboard's replacement: release the old chart, then mount the new one.
   * Exactly one chart is alive afterwards, the new one; the old one, if any,
   * was destroyed exactly once; nothing destroyed earlier is touched.
   */
  function Replace<V>(c: Canvas<V>, config: ChartConfig<V>): (r: Canvas<V>)
    ensures r.slot.Some? && r.slot.value.config == config
    ensures Owned(c) ==> Construct(Release(c), config) == Some(r)
    ensures Owned(c) ==> Owned(r) && r.live == {r.slot.value.id}
    ensures Owned(c) ==> r.slot.value.id !in c.live && r.slot.value.id !in c.destroyed
    ensures c.slot.None? ==> r.destroyed == c.destroyed
    ensures c.slot.Some? ==> r.destroyed == c.destroyed + [c.slot.value.id]
  {
    Mount(Release(c), config)
  }

  /**
   * Without the release the construction is refused: the chart the slot holds
   * is still alive on the canvas.
   */
  lemma ConstructWithoutReleaseRefused<V>(c: Canvas<V>, config: ChartConfig<V>)
    requires Owned(c) && c.slot.Some?
    ensures Construct(c, config).None?
  {
  }

  /** Replacing twice still leaves one live chart, and each old chart destroyed once. */
  lemma ReplaceTwice<V>(c: Canvas<V>, first: ChartConfig<V>, second: ChartConfig<V>)
    requires Owned(c)
    ensures var once := Replace(c, first);
            var twice := Replace(once, second);
            |twice.live| == 1 && twice.slot.value.config == second
            && twice.destroyed == once.destroyed + [once.slot.value.id]
  {
  }

  /** The empty canvas the page starts with. */
  function EmptyCanvas<V>(): (c: Canvas<V>)
    ensures Owned(c) && c.live == {}
  {
    Canvas(None, {}, [], 0)
  }
}
