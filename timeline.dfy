/**
 * The timeline: a horizontally scrolling strip of month columns around the current month. The
 * visible window is `[startOffset, endOffset)` months relative to "now"; scrolling near an edge
 * widens it by a buffer of twelve months, and prepending months is compensated by a pending
 * scroll adjustment so that what the user looks at does not jump. Switching between the quarterly
 * and the yearly view keeps the month at the centre of the viewport in view.
 *
 * The window's months are specified by `Calendar.MonthRun`: the keys of consecutive months.
 */
module Timeline {
  import opened Wrappers
  import opened Text
  import opened Calendar
  import RunwayCalculations

  /** Pixels per month in the quarterly view. */
  const QuarterlyMonthWidth: int := 100
  /** Pixels per month in the yearly view. */
  const YearlyMonthWidth: int := 30
  /** Months loaded on each side at a time. */
  const ScrollBuffer: int := 12
  /** Distance in pixels from an edge that triggers loading more months. */
  const ScrollThreshold: int := 200
  /** Padding kept to the left of the current month when the timeline first scrolls to it. */
  const MountPadding: int := 100

  datatype ViewMode = Quarterly | Yearly

  function MonthWidth(mode: ViewMode): (w: int)
    ensures w > 0
  {
    if mode == Quarterly then QuarterlyMonthWidth else YearlyMonthWidth
  }

  /**
   * `generateMonths`: `count` keys from the given month on, stepping the month and rolling it over
   * into the next year after 12. Started from a month in 1..12 the keys are those of consecutive
   * months; a non-positive count gives no keys.
   */
  method GenerateMonths(startYear: int, startMonth: int, count: int) returns (months: seq<string>)
    ensures |months| == if count > 0 then count else 0
    ensures |months| > 0 ==> months[0] == MonthKey(startYear, startMonth)
    ensures 1 <= startMonth <= 12 ==> months == MonthRun(MonthIndex(startYear, startMonth), |months|)
  {
    months := [];
    var year, month := startYear, startMonth;
    var i := 0;
    while i < count
      invariant 0 <= i <= (if count > 0 then count else 0)
      invariant |months| == i
      invariant i == 0 ==> year == startYear && month == startMonth
      invariant i > 0 ==> months[0] == MonthKey(startYear, startMonth)
      invariant 1 <= startMonth <= 12 ==>
        1 <= month <= 12 && MonthIndex(year, month) == MonthIndex(startYear, startMonth) + i &&
        months == MonthRun(MonthIndex(startYear, startMonth), i)
    {
      if 1 <= startMonth <= 12 {
        MonthRunExtend(MonthIndex(startYear, startMonth), i, year, month);
      }
      months := months + [MonthKey(year, month)];
      month := month + 1;
      if month > 12 {
        month := 1;
        year := year + 1;
      }
      i := i + 1;
    }
  }

  /**
   * `subtractMonths`: goes `count` months back by lowering the month and borrowing whole years
   * while it is below 1. The position on the month line always drops by `count`; whenever the
   * lowered month is not above 12 (in particular for a month in 1..12 and a non-negative count)
   * the result is the calendar month there, and no year is borrowed when none is needed.
   */
  method SubtractMonths(year: int, month: int, count: int) returns (r: YearMonth)
    ensures MonthIndex(r.year, r.month) == MonthIndex(year, month) - count
    ensures month - count <= 12 ==> r == MonthAt(MonthIndex(year, month) - count)
    ensures month - count >= 1 ==> r == YearMonth(year, month - count)
  {
    var y, m := year, month - count;
    while m < 1
      invariant MonthIndex(y, m) == MonthIndex(year, month) - count
      invariant month - count <= 12 ==> m <= 12
      invariant month - count >= 1 ==> y == year && m == month - count
      decreases -m
    {
      m := m + 12;
      y := y - 1;
    }
    r := YearMonth(y, m);
    if month - count <= 12 {
      MonthAtIndex(y, m);
    }
  }

  /**
   * `addMonths`: goes `count` months forward by raising the month and carrying whole years while
   * it is above 12; the mirror image of `SubtractMonths`.
   */
  method AddMonths(year: int, month: int, count: int) returns (r: YearMonth)
    ensures MonthIndex(r.year, r.month) == MonthIndex(year, month) + count
    ensures month + count >= 1 ==> r == MonthAt(MonthIndex(year, month) + count)
    ensures month + count <= 12 ==> r == YearMonth(year, month + count)
  {
    var y, m := year, month + count;
    while m > 12
      invariant MonthIndex(y, m) == MonthIndex(year, month) + count
      invariant month + count >= 1 ==> m >= 1
      invariant month + count <= 12 ==> y == year && m == month + count
      decreases m
    {
      m := m - 12;
      y := y + 1;
    }
    r := YearMonth(y, m);
    if month + count >= 1 {
      MonthAtIndex(y, m);
    }
  }

  /** A number as a template literal writes it: a NaN becomes "NaN". */
  function NumberText(x: Option<nat>): string {
    if x.Some? then IntToString(x.value) else "NaN"
  }

  /** `getQuarterLabel`: "Q" followed by `Math.ceil(month / 3)`, a space and the year. */
  function QuarterLabel(monthStr: string): string {
    var p := ParseMonthString(monthStr);
    "Q" + (if p.month.Some? then IntToString(Quarter(p.month.value)) else "NaN") + " " + NumberText(p.year)
  }

  /** `isQuarterStart`: the month is 1 modulo 3 (never for a NaN month). */
  predicate IsQuarterStart(monthStr: string) {
    var p := ParseMonthString(monthStr);
    p.month.Some? && p.month.value % 3 == 1
  }

  /** `isYearStart`: the month is January. */
  predicate IsYearStart(monthStr: string) {
    var p := ParseMonthString(monthStr);
    p.month == Some(1)
  }

  /** On a month key the timeline's quarter label is the runway's quarter label of that month. */
  lemma QuarterLabelOfKey(year: nat, month: int)
    requires 1 <= month <= 12
    ensures QuarterLabel(MonthKey(year, month)) == RunwayCalculations.FormatQuarter(month, year)
  {
    ParseMonthKey(year, month);
  }

  /**
   * On a month key, a quarter starts exactly at the first month of its quarter (January, April,
   * July, October), a year exactly in January, and every year start is a quarter start.
   */
  lemma QuarterAndYearStartsOfKey(year: nat, month: int)
    requires 1 <= month <= 12
    ensures IsQuarterStart(MonthKey(year, month)) <==> month == 3 * Quarter(month) - 2
    ensures IsYearStart(MonthKey(year, month)) <==> month == 1
    ensures IsYearStart(MonthKey(year, month)) ==> IsQuarterStart(MonthKey(year, month))
  {
    ParseMonthKey(year, month);
  }

  /**
   * The month shown at the centre of the viewport: `Math.floor(centerX / monthWidth)`, kept to the
   * last month of the window.
   */
  function AnchorIndex(scrollLeft: real, clientWidth: real, mode: ViewMode, count: nat): (r: int)
    requires scrollLeft >= 0.0 && clientWidth >= 0.0 && count > 0
    ensures 0 <= r < count
  {
    var centerX := scrollLeft + clientWidth / 2.0;
    var w := MonthWidth(mode) as real;
    assert centerX / w >= 0.0;
    var c := (centerX / w).Floor;
    if c < count - 1 then c else count - 1
  }

  /** The anchor is the month whose column holds the viewport's centre, or the last month. */
  lemma AnchorHoldsCenter(scrollLeft: real, clientWidth: real, mode: ViewMode, count: nat)
    requires scrollLeft >= 0.0 && clientWidth >= 0.0 && count > 0
    ensures var r := AnchorIndex(scrollLeft, clientWidth, mode, count);
      var centerX := scrollLeft + clientWidth / 2.0;
      var w := MonthWidth(mode) as real;
      r == count - 1 || ((r as real) * w <= centerX < ((r + 1) as real) * w)
  {
    var centerX := scrollLeft + clientWidth / 2.0;
    var w := MonthWidth(mode) as real;
    var q := centerX / w;
    var c := q.Floor;
    assert q * w == centerX;
    assert (c as real) <= q < (c as real) + 1.0;
    assert (c as real) * w <= q * w by {
      MultiplyMonotone(c as real, q, w);
    }
    assert q * w < ((c as real) + 1.0) * w by {
      MultiplyStrict(q, (c as real) + 1.0, w);
    }
  }

  lemma MultiplyMonotone(a: real, b: real, w: real)
    requires a <= b && w > 0.0
    ensures a * w <= b * w
  {
  }

  lemma MultiplyStrict(a: real, b: real, w: real)
    requires a < b && w > 0.0
    ensures a * w < b * w
  {
  }

  /** `Math.max(0, target)` for a scroll position. */
  function ClampScroll(target: real): (r: real)
    ensures r >= 0.0 && r >= target
    ensures r == target || r == 0.0
  {
    if target > 0.0 then target else 0.0
  }

  /** Where the mount effect scrolls to: the month's column less a padding, but not before 0. */
  function MountScroll(index: int, mode: ViewMode): (r: real)
    ensures r >= 0.0
  {
    ClampScroll((index * MonthWidth(mode) - MountPadding) as real)
  }

  /**
   * The current month lies in a window of `count` months that starts `-startOffset` months before
   * it (at `first` on the month line) and ends after it, at index `-startOffset`.
   */
  lemma CurrentMonthInWindow(year: int, month: int, startOffset: int, first: int, count: nat)
    requires 1 <= month <= 12 && 0 <= -startOffset < count
    requires first == MonthIndex(year, month) + startOffset
    ensures IndexOf(MonthRun(first, count), MonthKey(year, month)) == -startOffset
  {
    MonthRunIndexOfInside(first, count, year, month, -startOffset);
  }

  /**
   * Widening a window by `before` months on the left and `after` on the right keeps the old months
   * as a contiguous block, and every old month's index grows by exactly `before`, so that on the
   * page its column moves right by `before` month widths.
   */
  lemma WindowExpansion(first: int, count: nat, before: nat, after: nat, wideFirst: int, wideCount: nat)
    requires wideFirst == first - before && wideCount == before + count + after
    ensures var old_ := MonthRun(first, count);
      var wide := MonthRun(wideFirst, wideCount);
      wide[before..before + count] == old_ &&
      forall k :: 0 <= k < count ==>
        IndexOf(wide, old_[k]) == k + before
  {
    var old_ := MonthRun(first, count);
    var wide := MonthRun(wideFirst, wideCount);
    MonthRunSlice(first, count, before, after, wideFirst, wideCount);
    forall k | 0 <= k < count
      ensures IndexOf(wide, old_[k]) == k + before
    {
      assert old_[k] == wide[k + before];
      MonthRunIndexOfOwn(wideFirst, wideCount, k + before);
    }
  }

  /** The highlighted strip over a month column while something is dragged over it. */
  datatype Strip = Strip(left: int, width: int)

  /**
   * The drop indicator: drawn only when the hovered target is a non-empty id that is one of the
   * window's months, over that month's column.
   */
  function DropIndicator(months: seq<string>, monthWidth: int, overId: Option<string>): (r: Option<Strip>)
    ensures r.Some? <==> TruthyText(overId) && overId.value in months
    ensures r.Some? ==> exists k :: 0 <= k < |months| && months[k] == overId.value && overId.value !in months[..k]
                                  && r.value == Strip(k * monthWidth, monthWidth)
  {
    if TruthyText(overId) && overId.value in months then
      var k := IndexOf(months, overId.value);
      Some(Strip(k * monthWidth, monthWidth))
    else None
  }

  /** Over the key of a month of the window the strip starts that month's distance from the first. */
  lemma DropIndicatorInWindow(first: int, count: nat, monthWidth: int, year: int, month: int)
    requires 1 <= month <= 12 && first <= MonthIndex(year, month) < first + count
    ensures DropIndicator(MonthRun(first, count), monthWidth, Some(MonthKey(year, month)))
         == Some(Strip((MonthIndex(year, month) - first) * monthWidth, monthWidth))
  {
    var run, key := MonthRun(first, count), MonthKey(year, month);
    var k := MonthIndex(year, month) - first;
    MonthRunIndexOf(first, count, year, month);
    assert IndexOf(run, key) == k;
    KeyAtMonthIndex(year, month);
    KeyAtNonEmpty(MonthIndex(year, month));
    assert TruthyText(Some(key)) && key in run;
  }

  /**
   * The timeline's state: the view mode, the window offsets, the pending scroll adjustment, the
   * anchor month of a view change and the scroll container's `scrollLeft`. The current month is
   * fixed when the view is made.
   */
  class TimelineView {
    const currentYear: int
    const currentMonth: int
    var viewMode: ViewMode
    var startOffset: int
    var endOffset: int
    var pendingScrollAdjustment: int
    var anchorMonth: Option<string>
    var scrollLeft: real

    /** The window always reaches a buffer's worth of months before and twice that after now. */
    ghost predicate Valid()
      reads this
    {
      1 <= currentMonth <= 12 && startOffset <= -ScrollBuffer && endOffset >= 2 * ScrollBuffer &&
      pendingScrollAdjustment >= 0 && scrollLeft >= 0.0
    }

    /** The position on the month line of the window's first month. */
    function First(): int
      reads this
    {
      MonthIndex(currentYear, currentMonth) + startOffset
    }

    /** The number of months in the window. */
    function Count(): nat
      reads this
    {
      if endOffset - startOffset > 0 then endOffset - startOffset else 0
    }

    /** The window's months: `Count()` consecutive keys from `First()`. */
    function Months(): seq<string>
      reads this
    {
      MonthRun(First(), Count())
    }

    /** The initial state: quarterly view, offsets -12 and 24, nothing pending, no anchor. */
    constructor(year: int, month: int)
      requires 1 <= month <= 12
      ensures Valid()
      ensures currentYear == year && currentMonth == month && viewMode == Quarterly
      ensures startOffset == -ScrollBuffer && endOffset == 2 * ScrollBuffer
      ensures pendingScrollAdjustment == 0 && anchorMonth == None && scrollLeft == 0.0
      ensures |Months()| == 36 && IndexOf(Months(), MonthKey(year, month)) == 12
    {
      currentYear, currentMonth := year, month;
      viewMode := Quarterly;
      startOffset, endOffset := -ScrollBuffer, 2 * ScrollBuffer;
      pendingScrollAdjustment := 0;
      anchorMonth := None;
      scrollLeft := 0.0;
      new;
      CurrentMonthInWindow(year, month, -ScrollBuffer, First(), Count());
    }

    /** The months memo: the start month by `subtractMonths`, then `generateMonths`. */
    method ComputeMonths() returns (months: seq<string>)
      requires Valid()
      ensures months == Months()
    {
      var start := SubtractMonths(currentYear, currentMonth, -startOffset);
      assert 1 <= start.month <= 12 && MonthIndex(start.year, start.month) == First();
      months := GenerateMonths(start.year, start.month, endOffset - startOffset);
      assert |months| == Count();
    }

    /** `currentMonthIndex`: where the current month's key is in the window. */
    function CurrentMonthIndex(): (r: int)
      requires Valid()
      reads this
      ensures r == -startOffset
    {
      CurrentMonthInWindow(currentYear, currentMonth, startOffset, First(), Count());
      IndexOf(Months(), MonthKey(currentYear, currentMonth))
    }

    /** The mount effect: scroll to the current month, less a padding, but not before 0. */
    method ScrollToCurrentMonth()
      requires Valid()
      modifies this
      ensures Valid()
      ensures scrollLeft == MountScroll(old(CurrentMonthIndex()), viewMode)
      ensures viewMode == old(viewMode) && startOffset == old(startOffset) && endOffset == old(endOffset)
      ensures pendingScrollAdjustment == old(pendingScrollAdjustment) && anchorMonth == old(anchorMonth)
    {
      var index := CurrentMonthIndex();
      if index >= 0 {
        scrollLeft := MountScroll(index, viewMode);
      }
    }

    /**
     * `handleScroll`: near the left edge, prepend a buffer of months and ask for the scroll position
     * to move right by exactly their width; near the right edge, append a buffer; both may happen
     * at once. The old months stay a contiguous block of the new window, shifted by the months
     * prepended.
     */
    method HandleScroll(scrollWidth: real, clientWidth: real)
      requires Valid()
      modifies this
      ensures Valid()
      ensures var nearLeft := old(scrollLeft) < ScrollThreshold as real;
        startOffset == (if nearLeft then old(startOffset) - ScrollBuffer else old(startOffset)) &&
        pendingScrollAdjustment ==
          (if nearLeft then ScrollBuffer * MonthWidth(viewMode) else old(pendingScrollAdjustment))
      ensures endOffset == if scrollWidth - old(scrollLeft) - clientWidth < ScrollThreshold as real
                           then old(endOffset) + ScrollBuffer else old(endOffset)
      ensures viewMode == old(viewMode) && anchorMonth == old(anchorMonth) && scrollLeft == old(scrollLeft)
      ensures var shift := if old(scrollLeft) < ScrollThreshold as real then ScrollBuffer else 0;
        Months()[shift..shift + |old(Months())|] == old(Months())
    {
      ghost var first, count := First(), endOffset - startOffset;
      ghost var before, after := 0, 0;
      if scrollLeft < ScrollThreshold as real {
        var monthsToAdd := ScrollBuffer;
        var newStartOffset := startOffset - monthsToAdd;
        var scrollAdjustment := monthsToAdd * MonthWidth(viewMode);
        startOffset := newStartOffset;
        pendingScrollAdjustment := scrollAdjustment;
        before := ScrollBuffer;
      }
      if scrollWidth - scrollLeft - clientWidth < ScrollThreshold as real {
        endOffset := endOffset + ScrollBuffer;
        after := ScrollBuffer;
      }
      MonthRunSlice(first, count, before, after, First(), Count());
    }

    /** The pending-adjustment effect: a non-zero adjustment is added to the scroll position once. */
    method ApplyPendingScroll()
      requires Valid()
      modifies this
      ensures Valid()
      ensures pendingScrollAdjustment == 0
      ensures scrollLeft == old(scrollLeft) + old(pendingScrollAdjustment) as real
      ensures viewMode == old(viewMode) && startOffset == old(startOffset) && endOffset == old(endOffset)
      ensures anchorMonth == old(anchorMonth)
    {
      if pendingScrollAdjustment != 0 {
        scrollLeft := scrollLeft + pendingScrollAdjustment as real;
        pendingScrollAdjustment := 0;
      }
    }

    /**
     * `handleViewModeChange`: remember the month at the viewport's centre (in the old month width)
     * as the anchor, then switch the mode. The anchor is a month of the window that looking it up
     * again finds at the same index.
     */
    method HandleViewModeChange(newMode: ViewMode, clientWidth: real)
      requires Valid() && clientWidth >= 0.0
      modifies this
      ensures Valid()
      ensures viewMode == newMode
      ensures var k := AnchorIndex(old(scrollLeft), clientWidth, old(viewMode), |Months()|);
        anchorMonth == Some(Months()[k]) && TruthyText(anchorMonth) && IndexOf(Months(), anchorMonth.value) == k
      ensures startOffset == old(startOffset) && endOffset == old(endOffset)
      ensures pendingScrollAdjustment == old(pendingScrollAdjustment) && scrollLeft == old(scrollLeft)
    {
      var months := ComputeMonths();
      var index := AnchorIndex(scrollLeft, clientWidth, viewMode, |months|);
      MonthRunOwnKey(First(), Count(), index);
      anchorMonth := Some(months[index]);
      viewMode := newMode;
      assert Months() == months;
    }

    /**
     * The anchor effect: when an anchor is set, scroll so that it sits at the viewport's centre in
     * the current month width (not before 0) if it is in the window, and clear it either way.
     */
    method AnchorEffect(clientWidth: real)
      requires Valid()
      modifies this
      ensures Valid()
      ensures anchorMonth == (if TruthyText(old(anchorMonth)) then None else old(anchorMonth))
      ensures scrollLeft ==
        if TruthyText(old(anchorMonth)) && IndexOf(Months(), old(anchorMonth).value) >= 0
        then ClampScroll((IndexOf(Months(), old(anchorMonth).value) * MonthWidth(viewMode)) as real - clientWidth / 2.0)
        else old(scrollLeft)
      ensures viewMode == old(viewMode) && startOffset == old(startOffset) && endOffset == old(endOffset)
      ensures pendingScrollAdjustment == old(pendingScrollAdjustment)
    {
      if TruthyText(anchorMonth) {
        var months := ComputeMonths();
        var monthIndex := IndexOf(months, anchorMonth.value);
        if monthIndex >= 0 {
          scrollLeft := ClampScroll((monthIndex * MonthWidth(viewMode)) as real - clientWidth / 2.0);
        }
        anchorMonth := None;
      }
    }
  }

  /**
   * A scroll near the left edge followed by the pending-adjustment effect keeps every month that
   * was on the page at the same place on the screen: its column moves right by the months
   * prepended, and the scroll position moves right by exactly their width.
   */
  method ScrollAtLeftEdge(view: TimelineView, scrollWidth: real, clientWidth: real)
    requires view.Valid() && view.scrollLeft < ScrollThreshold as real
    modifies view
    ensures view.Valid() && view.pendingScrollAdjustment == 0 && view.viewMode == old(view.viewMode)
    ensures |view.Months()| >= |old(view.Months())| + ScrollBuffer
    ensures forall k :: 0 <= k < |old(view.Months())| ==>
      var j := IndexOf(view.Months(), old(view.Months())[k]);
      && j == k + ScrollBuffer
      && (j * MonthWidth(view.viewMode)) as real - view.scrollLeft
         == (k * MonthWidth(view.viewMode)) as real - old(view.scrollLeft)
  {
    ghost var months := view.Months();
    view.HandleScroll(scrollWidth, clientWidth);
    view.ApplyPendingScroll();
    var w := MonthWidth(view.viewMode);
    forall k | 0 <= k < |months|
      ensures IndexOf(view.Months(), months[k]) == k + ScrollBuffer
      ensures ((k + ScrollBuffer) * w) as real - view.scrollLeft == (k * w) as real - old(view.scrollLeft)
    {
      assert view.Months()[k + ScrollBuffer] == months[k];
      MonthRunIndexOfOwn(view.First(), view.Count(), k + ScrollBuffer);
      assert (k + ScrollBuffer) * w == k * w + ScrollBuffer * w;
    }
  }

  /**
   * A view change followed by its anchor effect leaves the month that was at the centre at the
   * centre in the new month width.
   */
  method ChangeViewMode(view: TimelineView, newMode: ViewMode, clientWidth: real)
    requires view.Valid() && clientWidth >= 0.0
    modifies view
    ensures view.Valid() && view.viewMode == newMode && view.anchorMonth == None
    ensures view.Months() == old(view.Months())
    ensures var k := AnchorIndex(old(view.scrollLeft), clientWidth, old(view.viewMode), |view.Months()|);
      view.scrollLeft == ClampScroll((k * MonthWidth(newMode)) as real - clientWidth / 2.0)
  {
    view.HandleViewModeChange(newMode, clientWidth);
    view.AnchorEffect(clientWidth);
  }
}
