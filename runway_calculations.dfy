/**
 * The cash-runway projection: starting from a cash balance in a starting month, each following
 * month deducts the payroll of every employee whose start month has arrived, until the cash
 * reaches zero or ten years have been projected.
 */
module RunwayCalculations {
  import opened Wrappers
  import opened Text
  import opened Calendar

  /** The fields of an employee the projection reads. An employee has no end date here. */
  datatype RunwayEmployee = RunwayEmployee(salary: Option<int>, startMonth: Option<int>, startYear: Option<int>)

  /** The locale label of a month ("Jan 2025"), kept as the month and year it is formatted from. */
  datatype MonthLabel = MonthLabel(month: int, year: int)

  /**
   * One month of a runway: its label, its cash balance and its payroll. The "YYYY-MM" sort key
   * and the "Q1 2025" quarter label are fixed by the month and year, so they are members
   * computed from the label rather than stored beside it.
   */
  datatype RunwayDataPoint = RunwayDataPoint(month: MonthLabel, cash: int, burn: int) {
    /** The `monthYear` field: `formatMonthYearISO(month, year)`. */
    function MonthYear(): string { MonthKey(month.year, month.month) }

    /** The `quarter` field: `formatQuarter(month, year)`. */
    function Quarter(): string { FormatQuarter(month.month, month.year) }
  }

  datatype RunwayCalculation = RunwayCalculation(
    dataPoints: seq<RunwayDataPoint>,
    monthsOfRunway: int,
    totalBurnRate: int,
    activeEmployeeCount: nat,
    useQuarterlyLabels: bool)

  /** The projection horizon: ten years of months after the starting month. */
  const MaxMonths: nat := 120

  /**
   * `compareDates`: its sign orders (year, month) pairs lexicographically. The value is a raw
   * difference, not the -1/0/1 its documentation announces.
   */
  function CompareDates(month1: int, year1: int, month2: int, year2: int): (r: int)
    ensures r < 0 <==> year1 < year2 || (year1 == year2 && month1 < month2)
    ensures r == 0 <==> year1 == year2 && month1 == month2
    ensures r > 0 <==> year1 > year2 || (year1 == year2 && month1 > month2)
  {
    if year1 != year2 then year1 - year2 else month1 - month2
  }

  /** On months in 1..12 the order of `compareDates` is the order of the month line. */
  lemma CompareDatesIsMonthOrder(month1: int, year1: int, month2: int, year2: int)
    requires 1 <= month1 <= 12 && 1 <= month2 <= 12
    ensures CompareDates(month1, year1, month2, year2) < 0 <==> MonthIndex(year1, month1) < MonthIndex(year2, month2)
    ensures CompareDates(month1, year1, month2, year2) == 0 <==> MonthIndex(year1, month1) == MonthIndex(year2, month2)
  {
    BeforeIsMonthOrder(year1, month1, year2, month2);
  }


  /** `getNextMonth`: the following month, one step further on the month line. */
  function NextMonth(month: int, year: int): (r: YearMonth)
    ensures MonthIndex(r.year, r.month) == MonthIndex(year, month) + 1
    ensures 1 <= month <= 12 ==> 1 <= r.month <= 12
    ensures CompareDates(month, year, r.month, r.year) < 0
  {
    if month == 12 then YearMonth(year + 1, 1) else YearMonth(year, month + 1)
  }

  /** `formatQuarter`: "Q<quarter> <year>". */
  function FormatQuarter(month: int, year: int): string {
    "Q" + IntToString(Quarter(month)) + " " + IntToString(year)
  }

  /** An employee the projection considers at all: salary, start month and start year all truthy. */
  predicate Counted(e: RunwayEmployee) {
    Truthy(e.salary) && Truthy(e.startMonth) && Truthy(e.startYear)
  }

  /** A counted employee whose start month is not after the given month. */
  predicate IsActive(e: RunwayEmployee, month: int, year: int) {
    Counted(e) && CompareDates(e.startMonth.value, e.startYear.value, month, year) <= 0
  }

  /** The payroll of a month: the salaries of the employees active in it. */
  function Burn(employees: seq<RunwayEmployee>, month: int, year: int): int {
    if employees == [] then 0
    else
      var e := employees[|employees| - 1];
      Burn(employees[..|employees| - 1], month, year) + (if IsActive(e, month, year) then e.salary.value else 0)
  }

  /** The number of employees active in a month. */
  function ActiveCount(employees: seq<RunwayEmployee>, month: int, year: int): (n: nat)
    ensures n <= |employees|
  {
    if employees == [] then 0
    else
      ActiveCount(employees[..|employees| - 1], month, year)
      + (if IsActive(employees[|employees| - 1], month, year) then 1 else 0)
  }

  /** `calculateMonthlyBurn`: one pass over the employees, adding up the active ones. */
  method CalculateMonthlyBurn(employees: seq<RunwayEmployee>, month: int, year: int)
    returns (burn: int, activeCount: nat)
    ensures burn == Burn(employees, month, year)
    ensures activeCount == ActiveCount(employees, month, year)
  {
    burn, activeCount := 0, 0;
    for i := 0 to |employees|
      invariant burn == Burn(employees[..i], month, year)
      invariant activeCount == ActiveCount(employees[..i], month, year)
    {
      var employee := employees[i];
      assert employees[..i + 1][..i] == employees[..i];
      if !employee.salary.Some? || employee.salary.value == 0
        || !employee.startMonth.Some? || employee.startMonth.value == 0
        || !employee.startYear.Some? || employee.startYear.value == 0 {
        continue;
      }
      var isActive := CompareDates(employee.startMonth.value, employee.startYear.value, month, year) <= 0;
      if isActive {
        burn := burn + employee.salary.value;
        activeCount := activeCount + 1;
      }
    }
    assert employees[..|employees|] == employees;
  }

  /** Salaries of the employees the projection counts are not negative. */
  predicate NonNegativeSalaries(employees: seq<RunwayEmployee>) {
    forall i :: 0 <= i < |employees| && employees[i].salary.Some? ==> employees[i].salary.value >= 0
  }

  /** With non-negative salaries the payroll only grows as the month moves forward. */
  lemma {:induction false} BurnMonotone(employees: seq<RunwayEmployee>, month1: int, year1: int, month2: int, year2: int)
    requires NonNegativeSalaries(employees)
    requires CompareDates(month1, year1, month2, year2) <= 0
    ensures 0 <= Burn(employees, month1, year1) <= Burn(employees, month2, year2)
  {
    if employees != [] {
      BurnMonotone(employees[..|employees| - 1], month1, year1, month2, year2);
    }
  }

  /** The data point of one month. */
  function Point(month: int, year: int, cash: int, burn: int): RunwayDataPoint {
    RunwayDataPoint(MonthLabel(month, year), cash, burn)
  }

  function Max(a: int, b: int): int { if a >= b then a else b }

  /**
   * The months projected after a month with the given cash: none once the cash is not positive
   * or no months are left; otherwise the next month, whose cash is the previous cash less its
   * payroll (never below zero), followed by the months projected from it.
   */
  function Projection(cash: int, month: int, year: int, employees: seq<RunwayEmployee>, monthsLeft: nat): seq<RunwayDataPoint>
    decreases monthsLeft
  {
    if cash <= 0 || monthsLeft == 0 then []
    else
      var next := NextMonth(month, year);
      var burn := Burn(employees, next.month, next.year);
      var nextCash := Max(0, cash - burn);
      [Point(next.month, next.year, nextCash, burn)] + Projection(nextCash, next.month, next.year, employees, monthsLeft - 1)
  }

  /** The data points of a runway: the starting month, then the projected months. */
  function RunwayPoints(startingCash: int, month: int, year: int, employees: seq<RunwayEmployee>): seq<RunwayDataPoint> {
    [Point(month, year, startingCash, Burn(employees, month, year))]
    + Projection(startingCash, month, year, employees, MaxMonths)
  }

  /** One month of a projection: the next month's point, then the projection from it. */
  lemma ProjectionStep(cash: int, month: int, year: int, employees: seq<RunwayEmployee>, monthsLeft: nat)
    requires cash > 0 && monthsLeft > 0
    ensures var next := NextMonth(month, year);
      var burn := Burn(employees, next.month, next.year);
      Projection(cash, month, year, employees, monthsLeft)
      == [Point(next.month, next.year, Max(0, cash - burn), burn)]
         + Projection(Max(0, cash - burn), next.month, next.year, employees, monthsLeft - 1)
  {
  }

  /** A projection from a non-positive cash, or with no months left, is empty. */
  lemma ProjectionEnd(cash: int, month: int, year: int, employees: seq<RunwayEmployee>, monthsLeft: nat)
    requires cash <= 0 || monthsLeft == 0
    ensures Projection(cash, month, year, employees, monthsLeft) == []
  {
  }

  /** Moving the head of the remaining months onto the months done keeps their concatenation. */
  lemma AppendStep<T>(done: seq<T>, x: T, rest: seq<T>, newRest: seq<T>)
    requires rest == [x] + newRest
    ensures (done + [x]) + newRest == done + rest
    ensures |done + [x]| == |done| + 1 && (done + [x])[|done|] == x
  {
  }

  /** The elements of a sequence with one element in front, by index. */
  lemma ConsIndex<T>(x: T, q: seq<T>)
    ensures |[x] + q| == |q| + 1 && ([x] + q)[0] == x
    ensures forall i :: 1 <= i < |q| + 1 ==> ([x] + q)[i] == q[i - 1]
  {
  }

  /** `calculateRunway`. */
  method CalculateRunway(startingCash: int, startingCashMonth: int, startingCashYear: int, employees: seq<RunwayEmployee>)
    returns (r: RunwayCalculation)
    ensures r.dataPoints == RunwayPoints(startingCash, startingCashMonth, startingCashYear, employees)
    ensures 1 <= |r.dataPoints| <= MaxMonths + 1
    ensures r.monthsOfRunway == |r.dataPoints| - 1
    ensures r.totalBurnRate == r.dataPoints[|r.dataPoints| - 1].burn
    ensures var last := r.dataPoints[|r.dataPoints| - 1].month;
      r.activeEmployeeCount == ActiveCount(employees, last.month, last.year)
    ensures r.useQuarterlyLabels <==> |r.dataPoints| >= 24
  {
    var currentCash := startingCash;
    var currentMonth := startingCashMonth;
    var currentYear := startingCashYear;
    var monthCount := 0;

    var initialBurn, initialCount := CalculateMonthlyBurn(employees, currentMonth, currentYear);
    var dataPoints := [Point(currentMonth, currentYear, currentCash, initialBurn)];

    while currentCash > 0 && monthCount < MaxMonths
      invariant 0 <= monthCount <= MaxMonths
      invariant |dataPoints| == monthCount + 1
      invariant dataPoints[|dataPoints| - 1].month == MonthLabel(currentMonth, currentYear)
      invariant dataPoints + Projection(currentCash, currentMonth, currentYear, employees, MaxMonths - monthCount)
             == RunwayPoints(startingCash, startingCashMonth, startingCashYear, employees)
      decreases MaxMonths - monthCount
    {
      ghost var rest := Projection(currentCash, currentMonth, currentYear, employees, MaxMonths - monthCount);
      ProjectionStep(currentCash, currentMonth, currentYear, employees, MaxMonths - monthCount);
      var next := NextMonth(currentMonth, currentYear);
      currentMonth := next.month;
      currentYear := next.year;
      monthCount := monthCount + 1;

      var burn, activeCount := CalculateMonthlyBurn(employees, currentMonth, currentYear);
      currentCash := Max(0, currentCash - burn);
      var point := Point(currentMonth, currentYear, currentCash, burn);
      AppendStep(dataPoints, point, rest, Projection(currentCash, currentMonth, currentYear, employees, MaxMonths - monthCount));
      dataPoints := dataPoints + [point];

      if currentCash == 0 {
        break;
      }
    }

    ProjectionEnd(currentCash, currentMonth, currentYear, employees, MaxMonths - monthCount);
    assert dataPoints + [] == dataPoints;
    var finalDataPoint := dataPoints[|dataPoints| - 1];
    var finalBurn, activeCount := CalculateMonthlyBurn(employees, currentMonth, currentYear);
    r := RunwayCalculation(dataPoints, |dataPoints| - 1, finalDataPoint.burn, activeCount, |dataPoints| >= 24);
  }

  /** A projection has at most one month per month left, and is empty exactly when nothing is projected. */
  lemma {:induction false} ProjectionLength(cash: int, month: int, year: int, employees: seq<RunwayEmployee>, monthsLeft: nat)
    ensures var p := Projection(cash, month, year, employees, monthsLeft);
      |p| <= monthsLeft && (cash > 0 && monthsLeft > 0 <==> p != [])
    decreases monthsLeft
  {
    if cash > 0 && monthsLeft > 0 {
      var next := NextMonth(month, year);
      ProjectionLength(Max(0, cash - Burn(employees, next.month, next.year)), next.month, next.year, employees, monthsLeft - 1);
    }
  }

  /** The months of a projection follow one another on the month line, starting after the given month. */
  lemma {:induction false} ProjectionMonths(cash: int, month: int, year: int, employees: seq<RunwayEmployee>, monthsLeft: nat)
    ensures var p := Projection(cash, month, year, employees, monthsLeft);
      && (p != [] ==> MonthIndex(p[0].month.year, p[0].month.month) == MonthIndex(year, month) + 1)
      && (forall i :: 0 <= i < |p| ==> MonthIndex(p[i].month.year, p[i].month.month) == MonthIndex(year, month) + i + 1)
      && (1 <= month <= 12 ==> forall i :: 0 <= i < |p| ==> 1 <= p[i].month.month <= 12)
    decreases monthsLeft
  {
    if cash > 0 && monthsLeft > 0 {
      var next := NextMonth(month, year);
      var nextCash := Max(0, cash - Burn(employees, next.month, next.year));
      ProjectionMonths(nextCash, next.month, next.year, employees, monthsLeft - 1);
      var p := Projection(cash, month, year, employees, monthsLeft);
      var q := Projection(nextCash, next.month, next.year, employees, monthsLeft - 1);
      assert p == [Point(next.month, next.year, nextCash, Burn(employees, next.month, next.year))] + q;
      assert forall i :: 1 <= i < |p| ==> p[i] == q[i - 1];
    }
  }

  /** The cash of a projection is never negative, positive before its last month, and zero where it ends early. */
  lemma {:induction false} ProjectionCash(cash: int, month: int, year: int, employees: seq<RunwayEmployee>, monthsLeft: nat)
    ensures var p := Projection(cash, month, year, employees, monthsLeft);
      && (forall i :: 0 <= i < |p| ==> p[i].cash >= 0)
      && (forall i :: 0 <= i < |p| - 1 ==> p[i].cash > 0)
      && (p != [] && |p| < monthsLeft ==> p[|p| - 1].cash == 0)
    decreases monthsLeft
  {
    if cash > 0 && monthsLeft > 0 {
      var next := NextMonth(month, year);
      var nextCash := Max(0, cash - Burn(employees, next.month, next.year));
      ProjectionCash(nextCash, next.month, next.year, employees, monthsLeft - 1);
      ProjectionLength(nextCash, next.month, next.year, employees, monthsLeft - 1);
      var p := Projection(cash, month, year, employees, monthsLeft);
      var q := Projection(nextCash, next.month, next.year, employees, monthsLeft - 1);
      assert p == [Point(next.month, next.year, nextCash, Burn(employees, next.month, next.year))] + q;
      assert forall i :: 1 <= i < |p| ==> p[i] == q[i - 1];
    }
  }

  /**
   * A runway has between 1 and 121 points and starts at the starting month, with the starting
   * cash and that month's payroll.
   */
  lemma RunwayStart(startingCash: int, month: int, year: int, employees: seq<RunwayEmployee>)
    ensures var p := RunwayPoints(startingCash, month, year, employees);
      && 1 <= |p| <= MaxMonths + 1
      && p[0] == Point(month, year, startingCash, Burn(employees, month, year))
  {
    ProjectionLength(startingCash, month, year, employees, MaxMonths);
  }

  /** Putting a month in front of the months that follow it keeps them consecutive. */
  lemma ConsMonths(x: RunwayDataPoint, q: seq<RunwayDataPoint>, base: int, inCalendar: bool)
    requires MonthIndex(x.month.year, x.month.month) == base
    requires forall i :: 0 <= i < |q| ==> MonthIndex(q[i].month.year, q[i].month.month) == base + i + 1
    requires inCalendar ==> 1 <= x.month.month <= 12 && forall i :: 0 <= i < |q| ==> 1 <= q[i].month.month <= 12
    ensures forall i :: 0 <= i < |[x] + q| ==> MonthIndex(([x] + q)[i].month.year, ([x] + q)[i].month.month) == base + i
    ensures inCalendar ==> forall i :: 0 <= i < |[x] + q| ==> 1 <= ([x] + q)[i].month.month <= 12
  {
    forall i | 1 <= i < |[x] + q|
      ensures ([x] + q)[i] == q[i - 1]
    {
    }
  }

  /** The months of a runway are consecutive on the month line, from the starting month on. */
  lemma RunwayMonths(startingCash: int, month: int, year: int, employees: seq<RunwayEmployee>)
    ensures var p := RunwayPoints(startingCash, month, year, employees);
      && (forall i :: 0 <= i < |p| ==> MonthIndex(p[i].month.year, p[i].month.month) == MonthIndex(year, month) + i)
      && (1 <= month <= 12 ==> forall i :: 0 <= i < |p| ==> 1 <= p[i].month.month <= 12)
  {
    ProjectionMonths(startingCash, month, year, employees, MaxMonths);
    ConsMonths(Point(month, year, startingCash, Burn(employees, month, year)),
      Projection(startingCash, month, year, employees, MaxMonths), MonthIndex(year, month), 1 <= month <= 12);
  }

  /**
   * Every projected cash of a runway is at least zero, every point before the last has positive
   * cash, and a runway shorter than 121 points ends at a cash that is not positive.
   */
  lemma RunwayCash(startingCash: int, month: int, year: int, employees: seq<RunwayEmployee>)
    ensures var p := RunwayPoints(startingCash, month, year, employees);
      && (forall i :: 1 <= i < |p| ==> p[i].cash >= 0)
      && (forall i :: 0 <= i < |p| - 1 ==> p[i].cash > 0)
      && (|p| < MaxMonths + 1 ==> p[|p| - 1].cash <= 0)
  {
    var q := Projection(startingCash, month, year, employees, MaxMonths);
    ProjectionLength(startingCash, month, year, employees, MaxMonths);
    ProjectionCash(startingCash, month, year, employees, MaxMonths);
    ConsIndex(Point(month, year, startingCash, Burn(employees, month, year)), q);
  }

  /** With non-negative salaries the cash of a projection never increases from month to month. */
  lemma {:induction false} ProjectionCashNonIncreasing(cash: int, month: int, year: int, employees: seq<RunwayEmployee>, monthsLeft: nat)
    requires NonNegativeSalaries(employees)
    ensures var p := Projection(cash, month, year, employees, monthsLeft);
      && (p != [] ==> p[0].cash <= cash)
      && (forall i :: 0 <= i < |p| - 1 ==> p[i + 1].cash <= p[i].cash)
    decreases monthsLeft
  {
    if cash > 0 && monthsLeft > 0 {
      var next := NextMonth(month, year);
      var burn := Burn(employees, next.month, next.year);
      BurnMonotone(employees, next.month, next.year, next.month, next.year);
      ProjectionCashNonIncreasing(Max(0, cash - burn), next.month, next.year, employees, monthsLeft - 1);
    }
  }

  lemma RunwayCashNonIncreasing(startingCash: int, month: int, year: int, employees: seq<RunwayEmployee>)
    requires NonNegativeSalaries(employees)
    ensures var p := RunwayPoints(startingCash, month, year, employees);
      forall i :: 0 <= i < |p| - 1 ==> p[i + 1].cash <= p[i].cash
  {
    ProjectionCashNonIncreasing(startingCash, month, year, employees, MaxMonths);
  }

  /** The payroll is the same positive amount in every month after the given one. */
  ghost predicate SteadyBurnAfter(employees: seq<RunwayEmployee>, month: int, year: int, burn: int) {
    forall m, y :: CompareDates(month, year, m, y) < 0 ==> Burn(employees, m, y) == burn
  }

  /** Under a steady payroll, a cash balance of k payrolls lasts exactly k months, ending at zero. */
  lemma {:induction false} ProjectionSteadyBurn(k: nat, burn: int, month: int, year: int, employees: seq<RunwayEmployee>, monthsLeft: nat)
    requires burn > 0 && 1 <= k <= monthsLeft
    requires SteadyBurnAfter(employees, month, year, burn)
    ensures var p := Projection(k * burn, month, year, employees, monthsLeft);
      |p| == k && p[k - 1].cash == 0 && p[k - 1].burn == burn
    decreases k
  {
    var next := NextMonth(month, year);
    assert Burn(employees, next.month, next.year) == burn;
    assert k * burn - burn == (k - 1) * burn;
    if k > 1 {
      assert SteadyBurnAfter(employees, next.month, next.year, burn);
      ProjectionSteadyBurn(k - 1, burn, next.month, next.year, employees, monthsLeft - 1);
    }
  }

  /** With no payroll at all, the cash never moves and the projection runs the full ten years. */
  lemma {:induction false} ProjectionWithoutBurn(cash: int, month: int, year: int, employees: seq<RunwayEmployee>, monthsLeft: nat)
    requires cash > 0
    requires forall m, y :: Burn(employees, m, y) == 0
    ensures var p := Projection(cash, month, year, employees, monthsLeft);
      |p| == monthsLeft && forall i :: 0 <= i < |p| ==> p[i].cash == cash && p[i].burn == 0
    decreases monthsLeft
  {
    if monthsLeft > 0 {
      var next := NextMonth(month, year);
      ProjectionWithoutBurn(cash, next.month, next.year, employees, monthsLeft - 1);
    }
  }

  /**
   * One hire on a positive salary, starting in the starting month, and a starting cash of k
   * salaries (k at most 120): the runway lasts exactly k months, its last month burns one salary,
   * leaves no cash and counts the hire as active.
   */
  lemma SingleHireRunway(salary: int, month: int, year: int, k: nat)
    requires salary > 0 && 1 <= month <= 12 && year != 0 && 1 <= k <= MaxMonths
    ensures var employees := [RunwayEmployee(Some(salary), Some(month), Some(year))];
      var p := RunwayPoints(k * salary, month, year, employees);
      && |p| - 1 == k
      && p[k].burn == salary
      && p[k].cash == 0
      && ActiveCount(employees, p[k].month.month, p[k].month.year) == 1
  {
    var employees := [RunwayEmployee(Some(salary), Some(month), Some(year))];
    assert employees[..0] == [];
    assert SteadyBurnAfter(employees, month, year, salary);
    ProjectionSteadyBurn(k, salary, month, year, employees, MaxMonths);
    var p := RunwayPoints(k * salary, month, year, employees);
    RunwayMonths(k * salary, month, year, employees);
    var last := p[k].month;
    CompareDatesIsMonthOrder(month, year, last.month, last.year);
  }

  /**
   * The same hire without a start month: no month has any payroll, so the projection runs all 120
   * months and the cash stays at 100,000 throughout.
   */
  lemma NoStartMeansNoDepletion()
    ensures var employees := [RunwayEmployee(Some(10000), None, Some(2025))];
      var p := RunwayPoints(100000, 1, 2025, employees);
      && |p| == MaxMonths + 1
      && forall i :: 0 <= i < |p| ==> p[i].cash == 100000 && p[i].burn == 0
  {
    var employees := [RunwayEmployee(Some(10000), None, Some(2025))];
    assert employees[..0] == [];
    ProjectionWithoutBurn(100000, 1, 2025, employees, MaxMonths);
  }

  datatype Validation = Valid | Invalid(message: string)

  /** `validateRunwayInputs`: the checks the dashboard makes before projecting a runway. */
  function ValidateRunwayInputs(startingCash: Option<int>, startingCashMonth: Option<int>, startingCashYear: Option<int>): (r: Validation)
    ensures r.Valid? <==>
      && startingCash.Some? && startingCash.value >= 0
      && startingCashMonth.Some? && 1 <= startingCashMonth.value <= 12
      && startingCashYear.Some? && 2000 <= startingCashYear.value <= 2100
    ensures startingCash.None? ==> r == Invalid("Starting cash is required")
    ensures startingCash.Some? && startingCash.value < 0 ==> r == Invalid("Starting cash must be positive")
    ensures startingCash.Some? && startingCash.value >= 0 && !(startingCashMonth.Some? && 1 <= startingCashMonth.value <= 12)
      ==> r == Invalid("Valid starting month is required (1-12)")
    ensures startingCash.Some? && startingCash.value >= 0 && startingCashMonth.Some? && 1 <= startingCashMonth.value <= 12
      && !(startingCashYear.Some? && 2000 <= startingCashYear.value <= 2100)
      ==> r == Invalid("Valid starting year is required")
  {
    if startingCash.None? then Invalid("Starting cash is required")
    else if startingCash.value < 0 then Invalid("Starting cash must be positive")
    else if !Truthy(startingCashMonth) || startingCashMonth.value < 1 || startingCashMonth.value > 12 then
      Invalid("Valid starting month is required (1-12)")
    else if !Truthy(startingCashYear) || startingCashYear.value < 2000 || startingCashYear.value > 2100 then
      Invalid("Valid starting year is required")
    else Valid
  }
}
