/**
 * Calendar months as the application writes and reads them: the "YYYY-MM" key that is at once
 * a month's identity on the timeline, the id of its drop target and the runway's sort key, and
 * the month arithmetic (a month's position `year * 12 + month - 1` on one integer line) that the
 * rest of the model uses to state what the loops over months compute.
 */
module Calendar {
  import opened Wrappers
  import opened Text

  datatype YearMonth = YearMonth(year: int, month: int)

  /** The key `${year}-${String(month).padStart(2, "0")}`. */
  function MonthKey(year: int, month: int): string {
    IntToString(year) + "-" + PadStart2(IntToString(month))
  }

  /** A month's position on the integer line of months: consecutive months are consecutive integers. */
  function MonthIndex(year: int, month: int): int {
    year * 12 + (month - 1)
  }

  /** The calendar month at a position of the month line, with its month in 1..12. */
  function MonthAt(index: int): (r: YearMonth)
    ensures 1 <= r.month <= 12
    ensures MonthIndex(r.year, r.month) == index
  {
    YearMonth(index / 12, index % 12 + 1)
  }

  lemma MonthAtIndex(year: int, month: int)
    requires 1 <= month <= 12
    ensures MonthAt(MonthIndex(year, month)) == YearMonth(year, month)
  {
  }

  /** `Math.ceil(month / 3)`: the quarter of a month. */
  function Quarter(month: int): (q: int)
    ensures 3 * (q - 1) < month <= 3 * q
    ensures 1 <= month <= 12 ==> 1 <= q <= 4
  {
    if month % 3 == 0 then month / 3 else month / 3 + 1
  }

  /**
   * The result of `parseMonthString`: `monthStr.split("-").map(Number)`, destructured into year and
   * month. None stands for NaN, which a piece that is not a digit run (or a missing piece) becomes.
   */
  datatype ParsedMonth = ParsedMonth(year: Option<nat>, month: Option<nat>)

  function ParseMonthString(monthStr: string): ParsedMonth {
    var pieces := Split(monthStr, '-');
    ParsedMonth(NumberOf(pieces[0]), if |pieces| >= 2 then NumberOf(pieces[1]) else None)
  }

  /** `a < b` between two numbers that may be NaN: false whenever either is NaN. */
  predicate Less(a: Option<nat>, b: Option<nat>) { a.Some? && b.Some? && a.value < b.value }

  /** `a === b` between two numbers that may be NaN. */
  predicate Same(a: Option<nat>, b: Option<nat>) { a.Some? && b.Some? && a.value == b.value }

  lemma {:induction false} DigitsValueZeroPrefix(s: string)
    requires AllDigits(s)
    ensures AllDigits("0" + s) && DigitsValue("0" + s) == DigitsValue(s)
  {
    var t := "0" + s;
    if s != [] {
      assert t[..|t| - 1] == "0" + s[..|s| - 1];
      DigitsValueZeroPrefix(s[..|s| - 1]);
    }
  }

  lemma PaddedMonthValue(month: nat)
    ensures AllDigits(PadStart2(NatToString(month)))
    ensures NumberOf(PadStart2(NatToString(month))) == Some(month)
  {
    var s := NatToString(month);
    DigitsValueOfNatToString(month);
    if |s| < 2 {
      assert PadStart2(s) == "0" + s;
      DigitsValueZeroPrefix(s);
    }
  }

  /** Reading a key back gives the month it was built from, for a non-negative year and month. */
  lemma ParseMonthKey(year: nat, month: nat)
    ensures ParseMonthString(MonthKey(year, month)) == ParsedMonth(Some(year), Some(month))
  {
    var y := NatToString(year);
    var m := PadStart2(NatToString(month));
    PaddedMonthValue(month);
    assert '-' !in y by {
      forall i | 0 <= i < |y| ensures y[i] != '-' { assert IsDigit(y[i]); }
    }
    assert '-' !in m by {
      forall i | 0 <= i < |m| ensures m[i] != '-' { assert IsDigit(m[i]); }
    }
    assert MonthKey(year, month) == y + ['-'] + m;
    SplitAfterPart(y, '-', m);
    SplitNoSeparator(m, '-');
    NumberOfNatToString(year);
  }

  lemma PaddedMonthLength(month: int)
    requires 1 <= month <= 12
    ensures |PadStart2(IntToString(month))| == 2
  {
  }

  /** Two normalised months with the same key are the same month. */
  lemma MonthKeyInjective(y1: int, m1: int, y2: int, m2: int)
    requires 1 <= m1 <= 12 && 1 <= m2 <= 12
    requires MonthKey(y1, m1) == MonthKey(y2, m2)
    ensures y1 == y2 && m1 == m2
  {
    var k := MonthKey(y1, m1);
    var p1, p2 := PadStart2(IntToString(m1)), PadStart2(IntToString(m2));
    PaddedMonthLength(m1);
    PaddedMonthLength(m2);
    var s1, s2 := IntToString(y1), IntToString(y2);
    assert |s1| == |s2|;
    assert s1 == k[..|s1|] && s2 == k[..|s2|];
    IntToStringInjective(y1, y2);
    assert p1 == k[|k| - 2..] == p2;
    PaddedMonthValue(m1);
    PaddedMonthValue(m2);
  }

  /** `(y1, m1)` comes before `(y2, m2)` in the lexicographic order the components compare months by. */
  predicate Before(y1: int, m1: int, y2: int, m2: int) {
    y1 < y2 || (y1 == y2 && m1 < m2)
  }

  /** On months in 1..12 the lexicographic order is the order of the month line. */
  lemma BeforeIsMonthOrder(y1: int, m1: int, y2: int, m2: int)
    requires 1 <= m1 <= 12 && 1 <= m2 <= 12
    ensures Before(y1, m1, y2, m2) <==> MonthIndex(y1, m1) < MonthIndex(y2, m2)
  {
    if y1 < y2 {
      assert MonthIndex(y1, m1) < y1 * 12 + 12 <= y2 * 12 <= MonthIndex(y2, m2);
    } else if y1 > y2 {
      assert MonthIndex(y2, m2) < y2 * 12 + 12 <= y1 * 12 <= MonthIndex(y1, m1);
    }
  }

  /** The key of the month at a position of the month line. */
  function KeyAt(index: int): string {
    var ym := MonthAt(index);
    MonthKey(ym.year, ym.month)
  }

  /** No month's key is empty. */
  lemma KeyAtNonEmpty(index: int)
    ensures KeyAt(index) != ""
  {
    var ym := MonthAt(index);
    assert |MonthKey(ym.year, ym.month)| >= 1 + |IntToString(ym.year)|;
  }

  /** The keys of `count` consecutive months, the first at position `first`. */
  function MonthRun(first: int, count: nat): seq<string> {
    seq(count, i => KeyAt(first + i))
  }

  lemma MonthRunAt(first: int, count: nat, i: int)
    requires 0 <= i < count
    ensures |MonthRun(first, count)| == count && MonthRun(first, count)[i] == KeyAt(first + i)
  {
  }

  /** Different positions of the month line have different keys. */
  lemma KeyAtInjective(i: int, j: int)
    ensures KeyAt(i) == KeyAt(j) <==> i == j
  {
    if KeyAt(i) == KeyAt(j) {
      var a, b := MonthAt(i), MonthAt(j);
      MonthKeyInjective(a.year, a.month, b.year, b.month);
    }
  }

  /**
   * Looking a month up in a run of consecutive months finds it at its distance from the first
   * month when it lies in the run, and nowhere otherwise.
   */
  lemma MonthRunIndexOf(first: int, count: nat, year: int, month: int)
    requires 1 <= month <= 12
    ensures var k := MonthIndex(year, month) - first;
      IndexOf(MonthRun(first, count), MonthKey(year, month)) == if 0 <= k < count then k else -1
  {
    KeyAtMonthIndex(year, month);
    MonthRunIndexOfKey(first, count, MonthIndex(year, month));
  }

  /** The same, for the key at any position of the month line. */
  lemma MonthRunIndexOfKey(first: int, count: nat, index: int)
    ensures var k := index - first;
      IndexOf(MonthRun(first, count), KeyAt(index)) == if 0 <= k < count then k else -1
  {
    MonthRunKeyPlaces(first, count, index);
    IndexOfOnlyPlace(MonthRun(first, count), KeyAt(index), index - first);
  }

  /** A key occurs in a run exactly at its own distance from the run's first month. */
  lemma MonthRunKeyPlaces(first: int, count: nat, index: int)
    ensures |MonthRun(first, count)| == count
    ensures forall j :: 0 <= j < count ==> (MonthRun(first, count)[j] == KeyAt(index) <==> j == index - first)
  {
    forall j | 0 <= j < count
      ensures MonthRun(first, count)[j] == KeyAt(index) <==> j == index - first
    {
      MonthRunAt(first, count, j);
      KeyAtInjective(first + j, index);
    }
  }

  /** A month of the window is found at its distance from the window's first month. */
  lemma MonthRunIndexOfInside(first: int, count: nat, year: int, month: int, k: int)
    requires 1 <= month <= 12 && k == MonthIndex(year, month) - first && 0 <= k < count
    ensures IndexOf(MonthRun(first, count), MonthKey(year, month)) == k
  {
    MonthRunIndexOf(first, count, year, month);
  }

  /** Every month of a run is found at its own position. */
  lemma MonthRunIndexOfOwn(first: int, count: nat, k: int)
    requires 0 <= k < count
    ensures IndexOf(MonthRun(first, count), MonthRun(first, count)[k]) == k
  {
    var ym := MonthAt(first + k);
    MonthRunIndexOf(first, count, ym.year, ym.month);
  }

  /** Every month of a run has a key, and looking that key up finds it where it is. */
  lemma MonthRunOwnKey(first: int, count: nat, k: int)
    requires 0 <= k < count
    ensures MonthRun(first, count)[k] != "" && IndexOf(MonthRun(first, count), MonthRun(first, count)[k]) == k
  {
    MonthRunAt(first, count, k);
    MonthRunIndexOfOwn(first, count, k);
    KeyAtNonEmpty(first + k);
  }

  /** A run widened by `before` months in front and `after` behind holds the old run as a slice. */
  lemma MonthRunSlice(first: int, count: nat, before: nat, after: nat, wideFirst: int, wideCount: nat)
    requires wideFirst == first - before && wideCount == before + count + after
    ensures MonthRun(wideFirst, wideCount)[before..before + count] == MonthRun(first, count)
  {
  }

  /** A run of keys for non-negative years reads back, key by key, as the months it was built from. */
  lemma KeyAtParses(index: int)
    requires index >= 0
    ensures var ym := MonthAt(index);
      ym.year >= 0 && ParseMonthString(KeyAt(index)) == ParsedMonth(Some(ym.year), Some(ym.month))
  {
    var ym := MonthAt(index);
    ParseMonthKey(ym.year, ym.month);
  }

  /** Every key of a window of non-negative month indices parses back to its month. */
  lemma MonthRunParses(first: int, count: nat, i: int, index: int)
    requires 0 <= i < count && index == first + i && index >= 0
    ensures var ym := MonthAt(index);
      ym.year >= 0 && ParseMonthString(MonthRun(first, count)[i]) == ParsedMonth(Some(ym.year), Some(ym.month))
  {
    var key := MonthRun(first, count)[i];
    MonthRunAt(first, count, i);
    assert key == KeyAt(index);
    KeyAtParses(index);
  }

  /** The key at a month's own position is that month's key. */
  lemma KeyAtMonthIndex(year: int, month: int)
    requires 1 <= month <= 12
    ensures KeyAt(MonthIndex(year, month)) == MonthKey(year, month)
  {
    MonthAtIndex(year, month);
  }

  /** A run one month longer is the run and the key of the month after it. */
  lemma MonthRunSnoc(first: int, count: nat)
    ensures MonthRun(first, count + 1) == MonthRun(first, count) + [KeyAt(first + count)]
  {
    var a, b := MonthRun(first, count + 1), MonthRun(first, count) + [KeyAt(first + count)];
    assert |a| == |b|;
    forall i | 0 <= i < count + 1 ensures a[i] == b[i] {
      if i < count {
        assert b[i] == MonthRun(first, count)[i];
      }
    }
  }

  /** Appending the key of the next month extends a window by one month. */
  lemma MonthRunExtend(first: int, count: nat, year: int, month: int)
    requires 1 <= month <= 12 && MonthIndex(year, month) == first + count
    ensures MonthRun(first, count + 1) == MonthRun(first, count) + [MonthKey(year, month)]
  {
    KeyAtMonthIndex(year, month);
    assert KeyAt(first + count) == MonthKey(year, month);
    MonthRunSnoc(first, count);
  }
}
