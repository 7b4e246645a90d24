/**
 * The bar an employee gets on the timeline: which run of visible months it covers (its start and
 * end months clamped into the window, or no bar at all), the box it is drawn in, the name written
 * on it and its colour.
 */
module EmployeeBars {
  import opened Wrappers
  import opened Text
  import opened Calendar

  /** Height of one employee row, in pixels. */
  const RowHeight: int := 40

  /** An employee as the timeline receives it; every field but the id is optional. */
  datatype Employee = Employee(
    id: string,
    firstName: Option<string>,
    lastName: Option<string>,
    position: Option<string>,
    salary: Option<int>,
    startMonth: Option<int>,
    startYear: Option<int>,
    endMonth: Option<int>,
    endYear: Option<int>)

  /** The "YYYY-MM" key of a start or end date, built only when its month and year are both truthy. */
  function DateKey(month: Option<int>, year: Option<int>): (r: Option<string>)
    ensures r.Some? <==> Truthy(month) && Truthy(year)
    ensures r.Some? ==> r.value == MonthKey(year.value, month.value)
  {
    if Truthy(month) && Truthy(year) then Some(MonthKey(year.value, month.value)) else None
  }

  /**
   * The start index of a bar: 0 without a start; the start's position when it is visible; 0 when
   * it lies before the first visible month; None (no bar) when it lies after.
   */
  function StartIndex(startKey: Option<string>, months: seq<string>): (r: Option<int>)
    requires |months| > 0
    ensures r.Some? ==> 0 <= r.value < |months|
  {
    if startKey.None? then Some(0)
    else
      var idx := IndexOf(months, startKey.value);
      if idx != -1 then Some(idx)
      else
        var start := ParseMonthString(startKey.value);
        var firstVisible := ParseMonthString(months[0]);
        if Less(start.year, firstVisible.year)
          || (Same(start.year, firstVisible.year) && Less(start.month, firstVisible.month))
        then Some(0)
        else None
  }

  /**
   * The end index of a bar: the last index without an end; the end's position when it is visible;
   * the last index when it lies after the last visible month; None (no bar) when it lies before.
   */
  function EndIndex(endKey: Option<string>, months: seq<string>): (r: Option<int>)
    requires |months| > 0
    ensures r.Some? ==> 0 <= r.value < |months|
  {
    if endKey.None? then Some(|months| - 1)
    else
      var idx := IndexOf(months, endKey.value);
      if idx != -1 then Some(idx)
      else
        var end := ParseMonthString(endKey.value);
        var lastVisible := ParseMonthString(months[|months| - 1]);
        if Less(lastVisible.year, end.year)
          || (Same(end.year, lastVisible.year) && Less(lastVisible.month, end.month))
        then Some(|months| - 1)
        else None
  }

  /** The first and last visible month a bar covers. */
  datatype Span = Span(startIndex: int, endIndex: int)

  /** The month run of an employee's bar, or None when `EmployeeBar` renders nothing. */
  function Layout(e: Employee, months: seq<string>): (r: Option<Span>)
    requires |months| > 0
    ensures r.Some? ==> 0 <= r.value.startIndex <= r.value.endIndex < |months|
    ensures r.Some? ==>
      && StartIndex(DateKey(e.startMonth, e.startYear), months) == Some(r.value.startIndex)
      && EndIndex(DateKey(e.endMonth, e.endYear), months) == Some(r.value.endIndex)
  {
    match StartIndex(DateKey(e.startMonth, e.startYear), months)
    case None => None
    case Some(startIndex) =>
      match EndIndex(DateKey(e.endMonth, e.endYear), months)
      case None => None
      case Some(endIndex) => if startIndex > endIndex then None else Some(Span(startIndex, endIndex))
  }

  function Max(a: int, b: int): int { if a >= b then a else b }

  function Min(a: int, b: int): int { if a <= b then a else b }

  /**
   * Where a start date falls relative to a window of `count` months from position `first`: the
   * index of the bar's start, None when the start is past the window.
   */
  function StartSlot(month: Option<int>, year: Option<int>, first: int, count: nat): Option<int> {
    if !(Truthy(month) && Truthy(year)) then Some(0)
    else
      var k := MonthIndex(year.value, month.value) - first;
      if k >= count then None else Some(Max(k, 0))
  }

  /** Where an end date falls relative to the window: the bar's end index, None when before it. */
  function EndSlot(month: Option<int>, year: Option<int>, first: int, count: nat): Option<int> {
    if !(Truthy(month) && Truthy(year)) then Some(count - 1)
    else
      var k := MonthIndex(year.value, month.value) - first;
      if k < 0 then None else Some(Min(k, count - 1))
  }

  /** A date the layout lemmas cover: absent, or a month in 1..12 of a non-negative year. */
  predicate WellFormedDate(month: Option<int>, year: Option<int>) {
    Truthy(month) && Truthy(year) ==> 1 <= month.value <= 12 && year.value >= 0
  }

  /** The start index, from what looking the key up and parsing it and the first month gave. */
  lemma StartIndexFromFacts(key: string, months: seq<string>, k: int, y: nat, m: nat, fy: nat, fm: nat)
    requires |months| > 0
    requires IndexOf(months, key) == if 0 <= k < |months| then k else -1
    requires ParseMonthString(key) == ParsedMonth(Some(y), Some(m))
    requires ParseMonthString(months[0]) == ParsedMonth(Some(fy), Some(fm))
    requires Before(y, m, fy, fm) <==> k < 0
    ensures StartIndex(Some(key), months) == if k >= |months| then None else Some(Max(k, 0))
  {
  }

  /** The end index, from what looking the key up and parsing it and the last month gave. */
  lemma EndIndexFromFacts(key: string, months: seq<string>, k: int, y: nat, m: nat, ly: nat, lm: nat)
    requires |months| > 0
    requires IndexOf(months, key) == if 0 <= k < |months| then k else -1
    requires ParseMonthString(key) == ParsedMonth(Some(y), Some(m))
    requires ParseMonthString(months[|months| - 1]) == ParsedMonth(Some(ly), Some(lm))
    requires Before(ly, lm, y, m) <==> k >= |months|
    ensures EndIndex(Some(key), months) == if k < 0 then None else Some(Min(k, |months| - 1))
  {
  }

  /**
   * On a window of consecutive months (of non-negative years) the start index is the start's
   * distance from the window's first month, clamped up to 0, and the bar vanishes exactly when the
   * start is past the window.
   */
  lemma StartIndexInWindow(month: Option<int>, year: Option<int>, first: int, count: nat)
    requires first >= 0 && count > 0
    requires WellFormedDate(month, year)
    ensures StartIndex(DateKey(month, year), MonthRun(first, count)) == StartSlot(month, year, first, count)
  {
    if Truthy(month) && Truthy(year) {
      var y, m := year.value, month.value;
      var ym := MonthAt(first);
      MonthRunIndexOf(first, count, y, m);
      ParseMonthKey(y, m);
      MonthRunParses(first, count, 0, first);
      BeforeIsMonthOrder(y, m, ym.year, ym.month);
      StartIndexFromFacts(MonthKey(y, m), MonthRun(first, count), MonthIndex(y, m) - first, y, m, ym.year, ym.month);
    }
  }

  /**
   * On a window of consecutive months the end index is the end's distance from the first month,
   * clamped down to the last index, and the bar vanishes exactly when the end is before the window.
   */
  lemma EndIndexInWindow(month: Option<int>, year: Option<int>, first: int, count: nat)
    requires first >= 0 && count > 0
    requires WellFormedDate(month, year)
    ensures EndIndex(DateKey(month, year), MonthRun(first, count)) == EndSlot(month, year, first, count)
  {
    if Truthy(month) && Truthy(year) {
      var y, m := year.value, month.value;
      var last := first + (count - 1);
      var ym := MonthAt(last);
      MonthRunIndexOf(first, count, y, m);
      ParseMonthKey(y, m);
      MonthRunParses(first, count, count - 1, last);
      BeforeIsMonthOrder(ym.year, ym.month, y, m);
      EndIndexFromFacts(MonthKey(y, m), MonthRun(first, count), MonthIndex(y, m) - first, y, m, ym.year, ym.month);
    }
  }

  /**
   * An employee with both dates drawn on a window of consecutive months gets a bar exactly when
   * the months from start to end are not empty and meet the window; the bar then covers their
   * part inside the window.
   */
  lemma LayoutInWindow(e: Employee, first: int, count: nat)
    requires first >= 0 && count > 0
    requires Truthy(e.startMonth) && Truthy(e.startYear) && Truthy(e.endMonth) && Truthy(e.endYear)
    requires WellFormedDate(e.startMonth, e.startYear) && WellFormedDate(e.endMonth, e.endYear)
    ensures var s := MonthIndex(e.startYear.value, e.startMonth.value) - first;
      var t := MonthIndex(e.endYear.value, e.endMonth.value) - first;
      Layout(e, MonthRun(first, count))
      == if s > t || s >= count || t < 0 then None else Some(Span(Max(s, 0), Min(t, count - 1)))
  {
    StartIndexInWindow(e.startMonth, e.startYear, first, count);
    EndIndexInWindow(e.endMonth, e.endYear, first, count);
  }

  /** An employee without dates is drawn across the whole window. */
  lemma UndatedEmployeeSpansWindow(e: Employee, months: seq<string>)
    requires |months| > 0
    requires !Truthy(e.startMonth) && !Truthy(e.endYear)
    ensures Layout(e, months) == Some(Span(0, |months| - 1))
  {
  }

  /** The box a bar is drawn in, in pixels. */
  datatype Box = Box(left: int, top: int, width: int, height: int)

  /**
   * The bar's box: `left` is `startIndex * monthWidth`, the raw width `(endIndex - startIndex + 1) *
   * monthWidth - 4`; the box is shifted right by 2, placed 4 below the top of its row and at least 60 wide.
   */
  function BarBox(span: Span, monthWidth: int, rowIndex: int): (b: Box)
    ensures b.width >= 60 && b.height == RowHeight - 8
  {
    var left := span.startIndex * monthWidth;
    var width := (span.endIndex - span.startIndex + 1) * monthWidth - 4;
    Box(left + 2, rowIndex * RowHeight + 4, Max(width, 60), RowHeight - 8)
  }

  /** Bars of different rows never overlap vertically. */
  lemma RowsDoNotOverlap(s1: Span, s2: Span, monthWidth: int, row1: int, row2: int)
    requires row1 < row2
    ensures BarBox(s1, monthWidth, row1).top + BarBox(s1, monthWidth, row1).height < BarBox(s2, monthWidth, row2).top
  {
  }

  /**
   * A bar wide enough not to need the 60-pixel minimum stays strictly inside the columns of its
   * months, 2 pixels in from each side.
   */
  lemma BarInsideItsMonths(span: Span, monthWidth: int, rowIndex: int)
    requires (span.endIndex - span.startIndex + 1) * monthWidth - 4 >= 60
    ensures var b := BarBox(span, monthWidth, rowIndex);
      b.left == span.startIndex * monthWidth + 2
      && b.left + b.width == (span.endIndex + 1) * monthWidth - 2
  {
  }

  /** A text without white space at either end. */
  predicate Tidy(s: string) {
    s != [] && !IsWhitespace(s[0]) && !IsWhitespace(s[|s| - 1])
  }

  /** The name on a bar: first and last name, trimmed, if either is set; else the position; else "TBD". */
  function DisplayName(e: Employee): (r: string)
    ensures !TruthyText(e.firstName) && !TruthyText(e.lastName) ==>
      r == if TruthyText(e.position) then e.position.value else "TBD"
    ensures r == "" ==> TruthyText(e.firstName) || TruthyText(e.lastName)
  {
    if TruthyText(e.firstName) || TruthyText(e.lastName) then
      Trim(e.firstName.GetOr("") + " " + e.lastName.GetOr(""))
    else if TruthyText(e.position) then e.position.value
    else "TBD"
  }

  lemma TrimSpaceAfter(s: string)
    requires Tidy(s)
    ensures Trim(s + " ") == s
  {
    var t := s + " ";
    assert TrimStart(t) == t;
    assert t[..|t| - 1] == s;
    assert TrimEnd(t) == TrimEnd(s) == s;
  }

  lemma TrimSpaceBefore(s: string)
    requires Tidy(s)
    ensures Trim(" " + s) == s
  {
    var t := " " + s;
    assert t[1..] == s;
    assert TrimStart(t) == TrimStart(s) == s;
  }

  /**
   * Tidy names are shown as they are: "First Last" with both, the one name with only one of them.
   */
  lemma DisplayNameOfTidyNames(e: Employee)
    requires TruthyText(e.firstName) ==> Tidy(e.firstName.value)
    requires TruthyText(e.lastName) ==> Tidy(e.lastName.value)
    ensures TruthyText(e.firstName) && TruthyText(e.lastName) ==>
      DisplayName(e) == e.firstName.value + " " + e.lastName.value
    ensures TruthyText(e.firstName) && !TruthyText(e.lastName) ==> DisplayName(e) == e.firstName.value
    ensures !TruthyText(e.firstName) && TruthyText(e.lastName) ==> DisplayName(e) == e.lastName.value
  {
    if TruthyText(e.firstName) && !TruthyText(e.lastName) {
      assert e.firstName.GetOr("") + " " + e.lastName.GetOr("") == e.firstName.value + " ";
      TrimSpaceAfter(e.firstName.value);
    } else if !TruthyText(e.firstName) && TruthyText(e.lastName) {
      assert e.firstName.GetOr("") + " " + e.lastName.GetOr("") == " " + e.lastName.value;
      TrimSpaceBefore(e.lastName.value);
    }
  }

  const Pink: string := "#EC4899"
  const Blue: string := "#3B82F6"
  const Purple: string := "#8B5CF6"
  const Amber: string := "#F59E0B"
  const Emerald: string := "#10B981"
  const Indigo: string := "#6366F1"

  /**
   * The bar colour: the colour of the first keyword family the lower-cased position contains
   * (design, engineering, product, marketing, sales, operations), blue when none.
   */
  function BarColor(position: Option<string>): (r: string)
    ensures r in {Pink, Blue, Purple, Amber, Emerald, Indigo}
    ensures var p := ToLower(position.GetOr(""));
      var design := Includes(p, "design");
      var engineering := Includes(p, "engineer") || Includes(p, "developer");
      var product := Includes(p, "product");
      var marketing := Includes(p, "marketing");
      var sales := Includes(p, "sales");
      var operations := Includes(p, "ops") || Includes(p, "operations");
      && (r == Pink <==> design)
      && (r == Blue <==> (!design && (engineering || (!product && !marketing && !sales && !operations))))
      && (r == Purple <==> (!design && !engineering && product))
      && (r == Amber <==> (!design && !engineering && !product && marketing))
      && (r == Emerald <==> (!design && !engineering && !product && !marketing && sales))
      && (r == Indigo <==> (!design && !engineering && !product && !marketing && !sales && operations))
  {
    var p := ToLower(position.GetOr(""));
    if Includes(p, "design") then Pink
    else if Includes(p, "engineer") || Includes(p, "developer") then Blue
    else if Includes(p, "product") then Purple
    else if Includes(p, "marketing") then Amber
    else if Includes(p, "sales") then Emerald
    else if Includes(p, "ops") || Includes(p, "operations") then Indigo
    else Blue
  }

  /** The colour does not depend on the case of the position. */
  lemma BarColorIgnoresCase(position: string)
    ensures BarColor(Some(position)) == BarColor(Some(ToLower(position)))
  {
    assert ToLower(ToLower(position)) == ToLower(position);
  }
}
