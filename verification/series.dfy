/**
 * A fetched forecast series: (date, value) points with the value carried as an
 * opaque payload. Gives `Math.min`/`Math.max` over the dates, and the
 * order-keeping filter that the date range applies.
 */
module Series {
  import opened Dates

  datatype Point<V> = Point(date: Date, value: V)

  /** The dates of the points, in order (static/app.js:59, 87). */
  function DatesOf<V>(data: seq<Point<V>>): (ds: seq<Date>)
    ensures |ds| == |data|
    ensures forall i :: 0 <= i < |data| ==> ds[i] == data[i].date
  {
    seq(|data|, i requires 0 <= i < |data| => data[i].date)
  }

  /** The values of the points, in order (static/app.js:88). */
  function ValuesOf<V>(data: seq<Point<V>>): (vs: seq<V>)
    ensures |vs| == |data|
    ensures forall i :: 0 <= i < |data| ==> vs[i] == data[i].value
  {
    seq(|data|, i requires 0 <= i < |data| => data[i].value)
  }

  /** `m` is in `ds` and no date of `ds` is earlier. */
  predicate IsEarliest(m: Date, ds: seq<Date>) {
    m in ds && forall d :: d in ds ==> !Before(d, m)
  }

  /** `m` is in `ds` and no date of `ds` is later. */
  predicate IsLatest(m: Date, ds: seq<Date>) {
    m in ds && forall d :: d in ds ==> !Before(m, d)
  }

  /** The earliest of a non-empty list of dates. */
  function Earliest(ds: seq<Date>): (m: Date)
    requires |ds| > 0
    ensures IsEarliest(m, ds)
  {
    if |ds| == 1 then ds[0]
    else
      var rest := Earliest(ds[1..]);
      assert ds == [ds[0]] + ds[1..];
      if Before(ds[0], rest) then ds[0] else rest
  }

  /** The latest of a non-empty list of dates. */
  function Latest(ds: seq<Date>): (m: Date)
    requires |ds| > 0
    ensures IsLatest(m, ds)
  {
    if |ds| == 1 then ds[0]
    else
      var rest := Latest(ds[1..]);
      assert ds == [ds[0]] + ds[1..];
      if Before(rest, ds[0]) then ds[0] else rest
  }

  /** Only one date of a list is its earliest, and one its latest. */
  lemma ExtremesAreUnique(ds: seq<Date>, m: Date)
    requires |ds| > 0
    ensures IsEarliest(m, ds) <==> m == Earliest(ds)
    ensures IsLatest(m, ds) <==> m == Latest(ds)
  {
  }

  /** The earliest date is never after the latest. */
  lemma EarliestNotAfterLatest(ds: seq<Date>)
    requires |ds| > 0
    ensures !Before(Latest(ds), Earliest(ds))
  {
  }

  /**
   * `new Date(Math.min(...dates))`: the earliest day, or an Invalid Date when
   * there are no dates (`Math.min()` is `Infinity`).
   */
  function MinInstant(ds: seq<Date>): (i: Instant)
    ensures i.Invalid? <==> |ds| == 0
    ensures i.At? ==> IsEarliest(i.date, ds)
  {
    if |ds| == 0 then Invalid else At(Earliest(ds))
  }

  /** `new Date(Math.max(...dates))`: the latest day, or an Invalid Date for no dates (`-Infinity`). */
  function MaxInstant(ds: seq<Date>): (i: Instant)
    ensures i.Invalid? <==> |ds| == 0
    ensures i.At? ==> IsLatest(i.date, ds)
  {
    if |ds| == 0 then Invalid else At(Latest(ds))
  }

  // ---------------------------------------------------------------------------
  // Filtering
  // ---------------------------------------------------------------------------

  /** `a` is `b` with some elements dropped, the rest in their original order. */
  predicate IsSubsequence<T(==)>(a: seq<T>, b: seq<T>)
    decreases |b|
  {
    || |a| == 0
    || (|b| > 0 && ((a[0] == b[0] && IsSubsequence(a[1..], b[1..])) || IsSubsequence(a, b[1..])))
  }

  /** `d >= bound` on Date objects: false against an Invalid Date. */
  predicate NotBefore(d: Date, bound: Instant) {
    bound.At? && !Before(d, bound.date)
  }

  /** `d <= bound` on Date objects: false against an Invalid Date. */
  predicate NotAfter(d: Date, bound: Instant) {
    bound.At? && !Before(bound.date, d)
  }

  /** The date tests a range filter applies. */
  datatype Test = From(lo: Instant) | Until(hi: Instant) | Between(lo: Instant, hi: Instant)

  predicate Passes(t: Test, d: Date) {
    match t
    case From(lo) => NotBefore(d, lo)
    case Until(hi) => NotAfter(d, hi)
    case Between(lo, hi) => NotBefore(d, lo) && NotAfter(d, hi)
  }

  /**
   * Keep the points whose date passes the test (static/app.js:80, 84): the
   * passing points, in order, each as many times as it occurs in the input.
   */
  function Filter<V(==)>(data: seq<Point<V>>, test: Test): (r: seq<Point<V>>)
    ensures FilterResult(r, data, test)
  {
    if |data| == 0 then []
    else
      var rest := Filter(data[1..], test);
      var r := if Passes(test, data[0].date) then [data[0]] + rest else rest;
      FilterStep(data, rest, r, test);
      r
  }

  /** Every point of `data` occurs in `r` as often as in `data` when it passes the test, and not at all otherwise. */
  predicate KeepsCounts<V(==)>(r: seq<Point<V>>, data: seq<Point<V>>, test: Test) {
    forall p | p in data :: multiset(r)[p] == (if Passes(test, p.date) then multiset(data)[p] else 0)
  }

  /**
   * What `Filter` promises of its result: only passing points of the input,
   * every passing point, in input order, each as often as in the input.
   */
  predicate FilterResult<V(==)>(r: seq<Point<V>>, data: seq<Point<V>>, test: Test) {
    && (forall i :: 0 <= i < |r| ==> r[i] in data && Passes(test, r[i].date))
    && (forall i :: 0 <= i < |data| && Passes(test, data[i].date) ==> data[i] in r)
    && IsSubsequence(r, data)
    && |r| <= |data|
    && KeepsCounts(r, data, test)
  }

  /** One step of `Filter`: prepending the head when it passes keeps every promise. */
  lemma FilterStep<V>(data: seq<Point<V>>, rest: seq<Point<V>>, r: seq<Point<V>>, test: Test)
    requires |data| > 0
    requires FilterResult(rest, data[1..], test)
    requires r == if Passes(test, data[0].date) then [data[0]] + rest else rest
    ensures FilterResult(r, data, test)
  {
    FilterMembersStep(data, rest, r, test);
    FilterOrderStep(data, rest, r, test);
    FilterCountsStep(data, rest, r, test);
  }

  /** One step of `Filter`: only passing points, and all of them. */
  lemma FilterMembersStep<V>(data: seq<Point<V>>, rest: seq<Point<V>>, r: seq<Point<V>>, test: Test)
    requires |data| > 0
    requires forall i :: 0 <= i < |rest| ==> rest[i] in data[1..] && Passes(test, rest[i].date)
    requires forall i :: 0 <= i < |data[1..]| && Passes(test, data[1..][i].date) ==> data[1..][i] in rest
    requires r == if Passes(test, data[0].date) then [data[0]] + rest else rest
    ensures forall i :: 0 <= i < |r| ==> r[i] in data && Passes(test, r[i].date)
    ensures forall i :: 0 <= i < |data| && Passes(test, data[i].date) ==> data[i] in r
  {
    assert data == [data[0]] + data[1..];
    forall i | 0 < i < |data| && Passes(test, data[i].date)
      ensures data[i] in r
    {
      assert data[i] == data[1..][i - 1];
    }
  }

  /** One step of `Filter`: input order is kept and the result is no longer than the input. */
  lemma FilterOrderStep<V>(data: seq<Point<V>>, rest: seq<Point<V>>, r: seq<Point<V>>, test: Test)
    requires |data| > 0
    requires IsSubsequence(rest, data[1..]) && |rest| <= |data[1..]|
    requires r == if Passes(test, data[0].date) then [data[0]] + rest else rest
    ensures IsSubsequence(r, data) && |r| <= |data|
  {
    if Passes(test, data[0].date) {
      assert r[1..] == rest;
    }
  }

  /** One step of `Filter`: the head is counted once more exactly when it passes. */
  lemma FilterCountsStep<V>(data: seq<Point<V>>, rest: seq<Point<V>>, r: seq<Point<V>>, test: Test)
    requires |data| > 0
    requires KeepsCounts(rest, data[1..], test)
    requires forall i :: 0 <= i < |rest| ==> rest[i] in data[1..]
    requires r == if Passes(test, data[0].date) then [data[0]] + rest else rest
    ensures KeepsCounts(r, data, test)
  {
    assert data == [data[0]] + data[1..];
    assert multiset(data) == multiset{data[0]} + multiset(data[1..]);
    assert multiset(r) == if Passes(test, data[0].date) then multiset{data[0]} + multiset(rest) else multiset(rest);
    forall p | p in data
      ensures multiset(r)[p] == (if Passes(test, p.date) then multiset(data)[p] else 0)
    {
      if p !in data[1..] {
        assert p !in rest;
        assert multiset(rest)[p] == 0;
      }
    }
  }

  /** A point of the series is kept exactly when it passes the test. */
  lemma FilterExact<V>(data: seq<Point<V>>, test: Test)
    ensures forall i :: 0 <= i < |data| ==> (data[i] in Filter(data, test) <==> Passes(test, data[i].date))
  {
    var r := Filter(data, test);
    forall i | 0 <= i < |data| && data[i] in r
      ensures Passes(test, data[i].date)
    {
      var j :| 0 <= j < |r| && r[j] == data[i];
    }
  }

  /** Filtering from `lo`, then until `hi`, is filtering once for the inclusive range between them. */
  lemma {:induction false} FilterTwice<V>(data: seq<Point<V>>, lo: Instant, hi: Instant)
    ensures Filter(Filter(data, From(lo)), Until(hi)) == Filter(data, Between(lo, hi))
  {
    if |data| > 0 {
      FilterTwice(data[1..], lo, hi);
      if Passes(From(lo), data[0].date) {
        assert Filter(data, From(lo))[1..] == Filter(data[1..], From(lo));
      }
    }
  }

  /** `Filter` on a non-empty series: the head, if it passes, before the filtered tail. */
  lemma FilterCons<V>(data: seq<Point<V>>, test: Test)
    requires |data| > 0
    ensures Filter(data, test) == (if Passes(test, data[0].date) then [data[0]] else []) + Filter(data[1..], test)
  {
  }

  /** A range whose end is before its start holds no day. */
  lemma ReversedRangeIsEmpty(lo: Date, hi: Date, d: Date)
    requires Before(hi, lo)
    ensures !Passes(Between(At(lo), At(hi)), d)
  {
  }

  /** An Invalid Date as either bound of a range keeps no point. */
  lemma InvalidBoundKeepsNothing<V>(data: seq<Point<V>>, bound: Instant)
    ensures Filter(data, Between(Invalid, bound)) == []
    ensures Filter(data, Between(bound, Invalid)) == []
  {
    FilterKeepsNone(data, Between(Invalid, bound));
    FilterKeepsNone(data, Between(bound, Invalid));
  }

  /** A test no point passes keeps nothing. */
  lemma {:induction false} FilterKeepsNone<V>(data: seq<Point<V>>, test: Test)
    requires forall i :: 0 <= i < |data| ==> !Passes(test, data[i].date)
    ensures Filter(data, test) == []
  {
    if |data| > 0 {
      FilterKeepsNone(data[1..], test);
    }
  }

  /** A test every point passes keeps the whole series. */
  lemma {:induction false} FilterKeepsAll<V>(data: seq<Point<V>>, test: Test)
    requires forall i :: 0 <= i < |data| ==> Passes(test, data[i].date)
    ensures Filter(data, test) == data
  {
    if |data| > 0 {
      FilterKeepsAll(data[1..], test);
      FilterCons(data, test);
      assert data == [data[0]] + data[1..];
    }
  }
}
