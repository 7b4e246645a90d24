/**
 * The runway inputs: a starting-cash field that accepts digits and thousands separators and shows
 * the amount regrouped, and an "MM/YYYY" starting-date field. Each edit either reports the parsed
 * values to the dashboard (`onUpdate`) or shows an error and reports nothing; the fields are also
 * refreshed whenever the dashboard's values change.
 */
module RunwayInputs {
  import opened Wrappers
  import opened Text
  import opened Calendar
  import RunwayCalculations

  /** Nothing but commas. */
  predicate AllCommas(s: string) { forall i :: 0 <= i < |s| ==> s[i] == ',' }

  /** Nothing but decimal digits and commas. */
  predicate DigitsAndCommas(s: string) { forall i :: 0 <= i < |s| ==> IsDigit(s[i]) || s[i] == ',' }

  /** `value.replace(/[^\d,]/g, "")`: only the decimal digits and the commas, in order. */
  function KeepDigitsAndCommas(s: string): (r: string)
    ensures |r| <= |s| && DigitsAndCommas(r)
    ensures DigitsAndCommas(s) ==> r == s
  {
    if s == [] then []
    else
      var rest := KeepDigitsAndCommas(s[1..]);
      assert DigitsAndCommas(s) ==> [s[0]] + s[1..] == s;
      if IsDigit(s[0]) || s[0] == ',' then [s[0]] + rest else rest
  }

  /** `value.replace(/,/g, "")`. */
  function RemoveCommas(s: string): (r: string)
    ensures |r| <= |s| && ',' !in r
    ensures r == [] <==> AllCommas(s)
    ensures DigitsAndCommas(s) ==> AllDigits(r)
    ensures ',' !in s ==> r == s
  {
    if s == [] then []
    else
      var rest := RemoveCommas(s[1..]);
      assert ',' !in s ==> [s[0]] + s[1..] == s;
      assert AllCommas(s) <==> s[0] == ',' && AllCommas(s[1..]);
      if s[0] == ',' then rest else [s[0]] + rest
  }

  lemma {:induction false} RemoveCommasAppend(a: string, b: string)
    ensures RemoveCommas(a + b) == RemoveCommas(a) + RemoveCommas(b)
  {
    if a != [] {
      assert (a + b)[0] == a[0] && (a + b)[1..] == a[1..] + b;
      RemoveCommasAppend(a[1..], b);
      var head := if a[0] == ',' then [] else [a[0]];
      assert RemoveCommas(a + b) == head + RemoveCommas(a[1..] + b);
      assert RemoveCommas(a) == head + RemoveCommas(a[1..]);
    } else {
      assert a + b == b;
    }
  }

  /**
   * The integer at the head of a text as `parseFloat` and `parseInt` read it: leading white space
   * is skipped, a sign is allowed, and the run of digits after it is the magnitude; no digits
   * there is NaN.
   */
  function LeadingInteger(s: string): (r: Option<int>)
    ensures AllDigits(s) ==> r == if s == [] then None else Some(DigitsValue(s))
  {
    var t := TrimStart(s);
    if |t| > 0 && (t[0] == '-' || t[0] == '+') then
      var d := LeadingDigits(t[1..]);
      var v: int := if d == [] then 0 else DigitsValue(d);
      if d == [] then None else Some(if t[0] == '-' then -v else v)
    else
      var d := LeadingDigits(t);
      assert AllDigits(s) && s != [] ==> t == s && d == s by {
        if AllDigits(s) && s != [] {
          assert !IsWhitespace(s[0]);
          assert TrimStart(s) == s;
        }
      }
      if d == [] then None else Some(DigitsValue(d))
  }

  /** `parseNumber`: the commas removed, then `parseFloat`; NaN becomes undefined. */
  function ParseNumber(value: string): Option<int> {
    LeadingInteger(RemoveCommas(value))
  }

  /** The digits of a natural number grouped by three from the right with commas, as "en-US" writes them. */
  function GroupThousands(d: string): (r: string)
    ensures |r| >= |d| && (d != [] ==> r != [])
    ensures AllDigits(d) ==> DigitsAndCommas(r)
    decreases |d|
  {
    if |d| <= 3 then d else GroupThousands(d[..|d| - 3]) + "," + d[|d| - 3..]
  }

  lemma {:induction false} RemoveCommasGroupThousands(d: string)
    requires ',' !in d
    ensures RemoveCommas(GroupThousands(d)) == d
    decreases |d|
  {
    if |d| > 3 {
      var a, b := d[..|d| - 3], d[|d| - 3..];
      RemoveCommasGroupThousands(a);
      RemoveCommasAppend(GroupThousands(a) + ",", b);
      RemoveCommasAppend(GroupThousands(a), ",");
      assert a + b == d;
    }
  }

  /** `formatWithCommas` on an integer: its sign, then its digits grouped by thousands. */
  function FormatWithCommas(x: int): string {
    (if x < 0 then "-" else "") + GroupThousands(NatToString(if x < 0 then -x else x))
  }

  /** The grouped text of a natural number reads back as that number, and keeps nothing else. */
  lemma FormatThenParse(n: nat)
    ensures ParseNumber(FormatWithCommas(n)) == Some(n)
    ensures KeepDigitsAndCommas(FormatWithCommas(n)) == FormatWithCommas(n)
  {
    var d := NatToString(n);
    assert ',' !in d by {
      forall i | 0 <= i < |d| ensures d[i] != ',' { assert IsDigit(d[i]); }
    }
    assert FormatWithCommas(n) == GroupThousands(d);
    RemoveCommasGroupThousands(d);
    DigitsValueOfNatToString(n);
  }

  const CashErrorMessage := "Please enter a valid positive number"
  const DateFormatMessage := "Use MM/YYYY format"
  const MonthRangeMessage := "Month must be between 1-12"
  const YearRangeMessage := "Please enter a valid year"

  /** What an edit of the cash field comes to. */
  datatype CashResult =
    | CashCleared
    | CashRejected(shown: string)
    | CashAccepted(amount: int, shown: string)

  /**
   * An edit of the cash field, step by step as `handleCashChange` takes it; `!cleaned.trim()` is
   * "all white space" (see `Text.Trim`).
   */
  function CashEntry(value: string): CashResult {
    var cleaned := KeepDigitsAndCommas(value);
    if AllWhitespace(cleaned) then CashCleared
    else
      var numValue := ParseNumber(cleaned);
      if numValue.None? || numValue.value < 0 then CashRejected(cleaned)
      else CashAccepted(numValue.value, FormatWithCommas(numValue.value))
  }

  /** Digits and commas are never white space: such a text trims to nothing only when empty. */
  lemma TrimDigitsAndCommas(s: string)
    requires DigitsAndCommas(s)
    ensures AllWhitespace(s) <==> s == []
  {
    if s != [] {
      assert !IsWhitespace(s[0]);
    }
  }

  /** Digits and commas parse as the digits once the commas are gone; only commas do not parse. */
  lemma ParseDigitsAndCommas(s: string)
    requires DigitsAndCommas(s)
    ensures ParseNumber(s) == if AllCommas(s) then None else Some(DigitsValue(RemoveCommas(s)))
  {
  }

  /**
   * What an edit of the cash field comes to: cleared when nothing but digits and commas is left
   * and that is empty, rejected (showing what was kept) when that is only commas, and otherwise
   * the amount the digits spell, shown regrouped. The amount is never negative.
   */
  lemma CashEntryOutcome(value: string)
    ensures var r, cleaned := CashEntry(value), KeepDigitsAndCommas(value);
      && (r.CashCleared? <==> cleaned == [])
      && (r.CashRejected? <==> cleaned != [] && AllCommas(cleaned))
      && (r.CashRejected? ==> r.shown == cleaned)
      && (r.CashAccepted? ==>
            r.amount >= 0 && r.amount == DigitsValue(RemoveCommas(cleaned)) && r.shown == FormatWithCommas(r.amount))
  {
    var cleaned := KeepDigitsAndCommas(value);
    TrimDigitsAndCommas(cleaned);
    ParseDigitsAndCommas(cleaned);
    var amount := DigitsValue(RemoveCommas(cleaned));
    assert CashEntry(value) ==
      if cleaned == [] then CashCleared
      else if AllCommas(cleaned) then CashRejected(cleaned)
      else CashAccepted(amount, FormatWithCommas(amount));
  }

  /** Typing a comma-only amount is rejected. */
  lemma CommasOnlyRejected(k: nat)
    requires k > 0
    ensures CashEntry(seq(k, _ => ',')) == CashRejected(seq(k, _ => ','))
  {
    var s := seq(k, _ => ',');
    assert AllCommas(s) && DigitsAndCommas(s);
    CashEntryOutcome(s);
  }

  /** Typing back the amount as the field shows it accepts the same amount and shows the same text. */
  lemma ShownCashIsStable(n: nat)
    ensures CashEntry(FormatWithCommas(n)) == CashAccepted(n, FormatWithCommas(n))
  {
    FormatThenParse(n);
    CashEntryOutcome(FormatWithCommas(n));
    var d := NatToString(n);
    assert FormatWithCommas(n) == GroupThousands(d);
    assert IsDigit(d[0]);
  }

  /** What an edit of the date field comes to. */
  datatype DateResult =
    | DateCleared
    | DateRejected(message: string)
    | DateAccepted(month: int, year: int)

  /**
   * An edit of the date field: cleared when blank; the format message unless it has exactly one
   * "/"; the month message when the part before it is not a month 1..12, checked before the year
   * message when the part after it is not a year 2000..2100; otherwise the month and year read.
   */
  function DateEntry(value: string): (r: DateResult)
    ensures r.DateCleared? <==> AllWhitespace(value)
    ensures r == DateRejected(DateFormatMessage) <==> !AllWhitespace(value) && |Split(value, '/')| != 2
    ensures r == DateRejected(MonthRangeMessage) <==>
      !AllWhitespace(value) && |Split(value, '/')| == 2 &&
      var m := LeadingInteger(Split(value, '/')[0]); !(m.Some? && 1 <= m.value <= 12)
    ensures r == DateRejected(YearRangeMessage) <==>
      !AllWhitespace(value) && |Split(value, '/')| == 2 &&
      var m := LeadingInteger(Split(value, '/')[0]); var y := LeadingInteger(Split(value, '/')[1]);
      m.Some? && 1 <= m.value <= 12 && !(y.Some? && 2000 <= y.value <= 2100)
    ensures r.DateAccepted? ==>
      && 1 <= r.month <= 12 && 2000 <= r.year <= 2100
      && LeadingInteger(Split(value, '/')[0]) == Some(r.month) && LeadingInteger(Split(value, '/')[1]) == Some(r.year)
  {
    if AllWhitespace(value) then DateCleared
    else
      var parts := Split(value, '/');
      if |parts| != 2 then DateRejected(DateFormatMessage)
      else
        var month := LeadingInteger(parts[0]);
        var year := LeadingInteger(parts[1]);
        if month.None? || month.value < 1 || month.value > 12 then DateRejected(MonthRangeMessage)
        else if year.None? || year.value < 2000 || year.value > 2100 then DateRejected(YearRangeMessage)
        else DateAccepted(month.value, year.value)
  }

  /** Every date the field accepts passes the date checks of `validateRunwayInputs`. */
  lemma AcceptedDateIsValid(value: string, cash: int)
    requires DateEntry(value).DateAccepted? && cash >= 0
    ensures var d := DateEntry(value);
      RunwayCalculations.ValidateRunwayInputs(Some(cash), Some(d.month), Some(d.year)) == RunwayCalculations.Valid
  {
  }

  /** The field's text for a date: the month padded to two digits, "/", the year. */
  function DateText(month: Option<int>, year: Option<int>): string {
    if Truthy(month) && Truthy(year) then PadStart2(IntToString(month.value)) + "/" + IntToString(year.value)
    else ""
  }

  /** The field's text for an amount: regrouped, or empty when there is none. */
  function CashText(cash: Option<int>): string {
    if cash.Some? then FormatWithCommas(cash.value) else ""
  }

  /** A date text with two parts that read as a month and a year in range is accepted as them. */
  lemma DateEntryAccepts(value: string, month: int, year: int)
    requires !AllWhitespace(value) && |Split(value, '/')| == 2
    requires LeadingInteger(Split(value, '/')[0]) == Some(month) && 1 <= month <= 12
    requires LeadingInteger(Split(value, '/')[1]) == Some(year) && 2000 <= year <= 2100
    ensures DateEntry(value) == DateAccepted(month, year)
  {
  }

  /** The digits of a natural number contain no separator. */
  lemma DigitsHaveNo(d: string, c: char)
    requires AllDigits(d) && !IsDigit(c)
    ensures c !in d
  {
    forall i | 0 <= i < |d|
      ensures d[i] != c
    {
      assert IsDigit(d[i]);
    }
  }

  /** Two runs of digits around one "/" split into those two runs. */
  lemma SplitDigitsAroundSlash(p: string, y: string)
    requires AllDigits(p) && AllDigits(y)
    ensures Split(p + "/" + y, '/') == [p, y]
  {
    DigitsHaveNo(p, '/');
    DigitsHaveNo(y, '/');
    SplitAfterPart(p, '/', y);
    SplitNoSeparator(y, '/');
  }

  /** Month digits, "/", year digits, with values in range: the date field accepts them. */
  lemma DateOfDigits(p: string, y: string, month: int, year: int)
    requires AllDigits(p) && AllDigits(y) && p != [] && y != []
    requires DigitsValue(p) == month && 1 <= month <= 12
    requires DigitsValue(y) == year && 2000 <= year <= 2100
    ensures DateEntry(p + "/" + y) == DateAccepted(month, year)
  {
    var s := p + "/" + y;
    SplitDigitsAroundSlash(p, y);
    assert !IsWhitespace(s[0]) by {
      assert s[0] == p[0] && IsDigit(p[0]);
    }
    DateEntryAccepts(s, month, year);
  }

  /** The text the date field shows for a valid date reads back as that date. */
  lemma DateTextRoundTrip(month: int, year: int)
    requires 1 <= month <= 12 && 2000 <= year <= 2100
    ensures DateEntry(DateText(Some(month), Some(year))) == DateAccepted(month, year)
  {
    var p := PadStart2(NatToString(month));
    var y := NatToString(year);
    PaddedMonthValue(month);
    DigitsValueOfNatToString(year);
    assert DateText(Some(month), Some(year)) == p + "/" + y;
    DateOfDigits(p, y, month, year);
  }

  /** A call of `onUpdate`. */
  datatype Update = Update(startingCash: Option<int>, startingCashMonth: Option<int>, startingCashYear: Option<int>)

  /**
   * The component's state: the dashboard's values it was given, the two fields' texts and
   * errors, and the `onUpdate` calls it has made.
   */
  class RunwayInputsView {
    var startingCash: Option<int>
    var startingCashMonth: Option<int>
    var startingCashYear: Option<int>
    var cashValue: string
    var dateValue: string
    var cashError: Option<string>
    var dateError: Option<string>
    var updates: seq<Update>

    constructor(startingCash: Option<int>, startingCashMonth: Option<int>, startingCashYear: Option<int>)
      ensures this.startingCash == startingCash && this.startingCashMonth == startingCashMonth
      ensures this.startingCashYear == startingCashYear
      ensures cashValue == CashText(startingCash) && dateValue == DateText(startingCashMonth, startingCashYear)
      ensures cashError == None && dateError == None && updates == []
    {
      this.startingCash := startingCash;
      this.startingCashMonth := startingCashMonth;
      this.startingCashYear := startingCashYear;
      cashValue := CashText(startingCash);
      dateValue := DateText(startingCashMonth, startingCashYear);
      cashError := None;
      dateError := None;
      updates := [];
    }

    /**
     * New values from the dashboard: each field is rewritten from them when the values it shows
     * changed (the two sync effects); the errors stay.
     */
    method ReceiveProps(cash: Option<int>, month: Option<int>, year: Option<int>)
      modifies this
      ensures startingCash == cash && startingCashMonth == month && startingCashYear == year
      ensures cashValue == if cash != old(startingCash) then CashText(cash) else old(cashValue)
      ensures dateValue == if month != old(startingCashMonth) || year != old(startingCashYear)
                           then DateText(month, year) else old(dateValue)
      ensures cashError == old(cashError) && dateError == old(dateError) && updates == old(updates)
    {
      if cash != startingCash {
        cashValue := CashText(cash);
      }
      if month != startingCashMonth || year != startingCashYear {
        dateValue := DateText(month, year);
      }
      startingCash, startingCashMonth, startingCashYear := cash, month, year;
    }

    /** `handleCashChange`: the field and its error follow the outcome of the edit; a cleared or accepted amount is reported. */
    method HandleCashChange(value: string)
      modifies this
      ensures match CashEntry(value)
        case CashCleared =>
          cashValue == "" && cashError == None &&
          updates == old(updates) + [Update(None, startingCashMonth, startingCashYear)]
        case CashRejected(shown) =>
          cashValue == shown && cashError == Some(CashErrorMessage) && updates == old(updates)
        case CashAccepted(amount, shown) =>
          cashValue == shown && cashError == None &&
          updates == old(updates) + [Update(Some(amount), startingCashMonth, startingCashYear)]
      ensures startingCash == old(startingCash) && startingCashMonth == old(startingCashMonth)
      ensures startingCashYear == old(startingCashYear)
      ensures dateValue == old(dateValue) && dateError == old(dateError)
    {
      match CashEntry(value)
      case CashCleared =>
        cashValue := "";
        cashError := None;
        updates := updates + [Update(None, startingCashMonth, startingCashYear)];
      case CashRejected(shown) =>
        cashValue := shown;
        cashError := Some(CashErrorMessage);
      case CashAccepted(amount, shown) =>
        cashValue := shown;
        cashError := None;
        updates := updates + [Update(Some(amount), startingCashMonth, startingCashYear)];
    }

    /** `handleDateChange`: the field shows what was typed whatever it is. */
    method HandleDateChange(value: string)
      modifies this
      ensures dateValue == value
      ensures match DateEntry(value)
        case DateCleared =>
          dateError == None && updates == old(updates) + [Update(startingCash, None, None)]
        case DateRejected(message) =>
          dateError == Some(message) && updates == old(updates)
        case DateAccepted(month, year) =>
          dateError == None && updates == old(updates) + [Update(startingCash, Some(month), Some(year))]
      ensures startingCash == old(startingCash) && startingCashMonth == old(startingCashMonth)
      ensures startingCashYear == old(startingCashYear)
      ensures cashValue == old(cashValue) && cashError == old(cashError)
    {
      dateValue := value;
      match DateEntry(value)
      case DateCleared =>
        dateError := None;
        updates := updates + [Update(startingCash, None, None)];
      case DateRejected(message) =>
        dateError := Some(message);
      case DateAccepted(month, year) =>
        dateError := None;
        updates := updates + [Update(startingCash, Some(month), Some(year))];
    }
  }
}
