# Headcount planner: a verified model

This project models the core of a headcount planner in Dafny.

- Employees have optional salaries and start and end months. They are laid out as bars on a timeline of months.
- Scenarios are named lists of employee ids, stored per user in a backend.
- A cash-runway projection is computed from a scenario's employees and shown as a chart.

The model covers these parts of the planner:

- **Runway calculation** (`runway_calculations.dfy`):
  - The month comparison, next-month stepping and quarter labels.
  - The monthly payroll (burn).
  - The month-by-month depletion of the starting cash, for at most 120 months.
  - The summary fields and the input validator.
- **Month keys and the timeline** (`calendar.dfy`, `timeline.dfy`, `employee_bars.dfy`):
  - The `YYYY-MM` key and its parser.
  - Month generation and the month arithmetic.
  - The visible window of months around the current month and its growth at either edge.
  - The scroll adjustments and the view-mode anchor.
  - The drop indicator.
  - The clamping of an employee's bar into the window, the bar's box, name and colour.
- **Drag and drop** (`dnd_context.dfy`): the provider's two state fields and the dispatch at the end of a drag.
- **Backend handlers** (`store.dfy`, `scenarios.dfy`, `employees.dfy`, `shared_links.dfy`, `id_lists.dfy`):
  - Every scenario, employee and share-link query and mutation.
  - They run over an in-memory database of tables keyed by ids. Ids come from one counter, so an index query returns records in creation order.
  - The signed-in user is an optional id.
  - The clock reading a mutation stamps is a parameter `now`.
- **Chart** (`runway_chart.dfy`): the quarter tick indices, the ticks and the run-out point.
- **Runway inputs** (`runway_inputs.dfy`): the cash and date fields, their parsing, and what they report.
- **LinkedIn import** (`apify_client.dfy`): choosing a profile's position at the company and dropping profiles without a start date.
- **Selection in the URL** (`current_scenario.dfy`): the `scenario` and `scenarios` query parameters.
- **Sidebar** (`app_sidebar.dfy`): unique names for new scenarios, the selection after a delete, and renaming.
- **Editable cell** (`editable_cell.dfy`): the edit/save/cancel state machine.

Other modelling choices:

- JavaScript numbers are modelled as integers.
- Optional values are `Option`.
- Strings are `seq<char>`.
- Thrown errors are `Result.Failure` carrying the message.
- Stateful components are classes. Their handlers are methods, and each effect is a method.
- An async handler is split at its `await` into a method before and a method after, and the awaited outcome is a parameter.

Three facts about the code shape the model:

- `compareDates` (lib/runway-calculations.ts:33-41) returns the raw year or month difference, although its doc comment (line 30) promises -1, 0 or 1. The model keeps the differences and states their sign.
- `calculateMonthlyBurn` (lib/runway-calculations.ts:76-101) counts an employee from the start month on and never reads an end date. The model does the same.
- The scenario handlers write `isDefault` and the financial fields (convex/scenarios.ts:60 and 412-416), which convex/schema.ts does not list. The model's scenario record holds them.

## Model

| member | source | states |
|---|---|---|
| Calendar.MonthAt | components/timeline.tsx:50-73 | the normalised month at a position of the month line has its month in 1..12 and lies at that position |
| Calendar.MonthAtIndex | components/timeline.tsx:50-73 | normalising a month already in 1..12 gives it back |
| Calendar.Quarter | lib/runway-calculations.ts:61-63 | `ceil(month/3)` is the q with 3(q-1) < month <= 3q; months 1..12 have quarters 1..4 |
| Calendar.MonthKey | components/employeebars.tsx:85-90 | the `YYYY-MM` key; `ParseMonthKey` reads it back and `MonthKeyInjective` shows different months get different keys |
| Calendar.ParseMonthString | components/employeebars.tsx:27-30 | split at "-" and `Number` of each piece; `ParseMonthKey` and `KeyAtParses` show it inverts `MonthKey` |
| Calendar.ParseMonthKey | components/employeebars.tsx:27-30 | parsing the key of a non-negative year and month gives back that year and month |
| Calendar.PaddedMonthValue | components/employeebars.tsx:85-90 | the zero-padded month is all digits and reads back as the month |
| Calendar.MonthKeyInjective | components/employeebars.tsx:85-90 | two months in 1..12 with the same key are the same month |
| Calendar.BeforeIsMonthOrder | components/employeebars.tsx:100-104 | the lexicographic (year, month) comparison is the order of the month line |
| Calendar.KeyAtInjective | components/timeline.tsx:33-47 | two positions of the month line have the same key exactly when they are equal |
| Calendar.MonthRunKeyPlaces | components/timeline.tsx:183-187 | a month's key occurs in a run of consecutive months exactly at its distance from the first |
| Calendar.MonthRunIndexOfInside | components/timeline.tsx:193-196 | `indexOf` finds a month of the window at its distance from the window's first month |
| Calendar.MonthRunOwnKey | components/timeline.tsx:222 | every month of a window has a non-empty key that `indexOf` finds where it is |
| Calendar.MonthRunIndexOfOwn | components/timeline.tsx:195 | each key of a window is found at its own position |
| Calendar.KeyAtParses | components/employeebars.tsx:27-30 | the key of every month of a non-negative year parses back to that month |
| Calendar.MonthRunSlice | components/timeline.tsx:249-261 | a window widened at both ends holds the old window as a contiguous block |
| Calendar.MonthRunParses | components/employeebars.tsx:100-101 | every key of a window of non-negative years parses back to its month |
| Calendar.MonthRunExtend | components/timeline.tsx:33-47 | appending the key of the next month extends a run by one month |
| Text.Trim | components/editable-cell.tsx:70 | `trim()`; `TrimSpec` states what it removes and keeps |
| Text.TrimSpec | components/editable-cell.tsx:70 | `trim()` is empty exactly for all-white-space text; it has no white space at either end and leaves tidy text unchanged |
| Text.TrimStart | components/editable-cell.tsx:70 | `trimStart` removes exactly the leading white space |
| Text.TrimEnd | components/editable-cell.tsx:70 | `trimEnd` removes exactly the trailing white space |
| Text.SplitJoin | hooks/use-current-scenario.ts:38 | splitting a comma join gives back parts that contain no comma |
| Text.IndexOf | components/timeline.tsx:195 | `indexOf` is -1 exactly when absent, else the first position holding the value |
| Text.IntToString | components/editable-cell.tsx:71 | `String(n)` is non-empty, starts with a minus exactly for negatives, and is the digits otherwise |
| Text.IntToStringInjective | components/editable-cell.tsx:71 | different integers have different texts |
| Text.NatToString | components/editable-cell.tsx:71 | the decimal text of a natural number is non-empty, all digits, and has no leading zero |
| Text.NatToStringInjective | components/editable-cell.tsx:71 | different natural numbers have different decimal texts |
| Text.LeadingDigits | components/RunwayInputs.tsx:111-112 | the longest prefix of digits: all digits, and followed by a non-digit or the end |
| Text.Join | hooks/use-current-scenario.ts:38 | `join(",")`; `SplitJoin` shows splitting undoes it for comma-free parts |
| Text.Split | hooks/use-current-scenario.ts:16 | `split` always gives at least one piece |
| Text.NumberOf | components/employeebars.tsx:28 | on the pieces a month key splits into (the empty text and runs of digits), `Number` gives 0 or the digits' value; every other text is NaN in the model; `NumberOfNatToString` reads a decimal text back |
| Text.Includes | components/employeebars.tsx:146-151 | `includes`; `BarColor` states the colours through it |
| Text.ToLower | components/employeebars.tsx:145 | `toLowerCase()` on ASCII letters; `BarColorIgnoresCase` shows the colour does not depend on case |
| Text.IndexOfOnlyPlace | components/timeline.tsx:195 | a value held at exactly one position is found there, and one held nowhere gives -1 |
| RunwayCalculations.FormatQuarter | lib/runway-calculations.ts:68-71 | "Q<quarter> <year>"; `QuarterLabelOfKey` shows the timeline's label of a key is this label |
| RunwayCalculations.CompareDates | lib/runway-calculations.ts:33-41 | negative, zero or positive exactly when the first month is before, equal to or after the second, lexicographically |
| RunwayCalculations.CompareDatesIsMonthOrder | lib/runway-calculations.ts:33-41 | on months 1..12 that order is the order of the month line |
| RunwayCalculations.NextMonth | lib/runway-calculations.ts:106-114 | the next month is one step further on the month line, stays in 1..12, and compares after |
| RunwayCalculations.ActiveCount | lib/runway-calculations.ts:91-97 | the active count never exceeds the number of employees |
| RunwayCalculations.CalculateMonthlyBurn | lib/runway-calculations.ts:76-101 | the loop returns the salaries and the number of the counted employees whose start month is not after the month; no end date is read |
| RunwayCalculations.BurnMonotone | lib/runway-calculations.ts:91-97 | with non-negative salaries the burn is non-negative and does not decrease as the month moves later |
| RunwayCalculations.ProjectionStep | lib/runway-calculations.ts:151-178 | one loop step: the next month's point with `max(0, cash - burn)`, then the rest of the projection |
| RunwayCalculations.ProjectionEnd | lib/runway-calculations.ts:151-178 | nothing is projected from a cash that is not positive or with no months left |
| RunwayCalculations.ProjectionLength | lib/runway-calculations.ts:151-178 | at most one point per month left, and none exactly when the cash is not positive or no month is left |
| RunwayCalculations.ProjectionMonths | lib/runway-calculations.ts:151-178 | the projected months follow the start month consecutively and stay in 1..12 |
| RunwayCalculations.ProjectionCash | lib/runway-calculations.ts:151-178 | projected cash is never negative, is positive before the last point, and is 0 when the loop stops early |
| RunwayCalculations.CalculateRunway | lib/runway-calculations.ts:119-196 | the loop yields the specified points (1 to 121); months of runway is points minus 1; the total burn is the last burn; the active count is at the last month; quarterly labels exactly from 24 points |
| RunwayCalculations.RunwayStart | lib/runway-calculations.ts:136-148 | 1 to 121 points, the first with the starting cash and the start month's burn |
| RunwayCalculations.RunwayMonths | lib/runway-calculations.ts:151-171 | the points are consecutive months from the starting month |
| RunwayCalculations.RunwayCash | lib/runway-calculations.ts:151-178 | cash after the first point is never negative, positive before the last point, and not positive at the end of a runway shorter than 121 points |
| RunwayCalculations.ProjectionCashNonIncreasing | lib/runway-calculations.ts:166 | with non-negative salaries the projected cash never increases |
| RunwayCalculations.RunwayCashNonIncreasing | lib/runway-calculations.ts:166 | with non-negative salaries the cash of a runway never increases after the first point |
| RunwayCalculations.ProjectionSteadyBurn | lib/runway-calculations.ts:151-178 | under a steady positive burn, k burns of cash last exactly k months and end at 0 |
| RunwayCalculations.ProjectionWithoutBurn | lib/runway-calculations.ts:151-178 | with no burn at all, the cash never moves and every month is projected |
| RunwayCalculations.SingleHireRunway | lib/runway-calculations.ts:119-196 | one hire at salary s from the start month and cash k·s (k ≤ 120) gives k months of runway ending at 0 with the hire active, e.g. 100,000 and 10,000 give 10 |
| RunwayCalculations.NoStartMeansNoDepletion | lib/runway-calculations.ts:86-88 | a hire without a start month is never counted, so the cash lasts all 120 months |
| RunwayCalculations.ValidateRunwayInputs | lib/runway-calculations.ts:201-222 | valid exactly when cash is given and non-negative, the month in 1..12 and the year in 2000..2100; otherwise the message of the first failing check: cash missing, cash negative, month, then year |
| EmployeeBars.DateKey | components/employeebars.tsx:85-90 | a key exists exactly when month and year are truthy, and it is their `YYYY-MM` key |
| EmployeeBars.StartIndex | components/employeebars.tsx:92-109 | a start index, when there is one, is a position of the window |
| EmployeeBars.EndIndex | components/employeebars.tsx:111-128 | an end index, when there is one, is a position of the window |
| EmployeeBars.Layout | components/employeebars.tsx:130-133 | a bar has 0 ≤ start ≤ end < N and is made of the start and end indices |
| EmployeeBars.StartIndexFromFacts | components/employeebars.tsx:92-109 | a start found in the window keeps its index, one before it clamps to 0, one after it gives no bar |
| EmployeeBars.EndIndexFromFacts | components/employeebars.tsx:111-128 | an end found in the window keeps its index, one after it clamps to N-1, one before it gives no bar |
| EmployeeBars.StartIndexInWindow | components/employeebars.tsx:92-109 | on a window of consecutive months the start index is its month-line slot: missing gives 0, before the window 0, inside its distance, after it none |
| EmployeeBars.EndIndexInWindow | components/employeebars.tsx:111-128 | on a window the end index is its slot: missing gives N-1, after the window N-1, inside its distance, before it none |
| EmployeeBars.LayoutInWindow | components/employeebars.tsx:92-133 | a dated employee gets a bar exactly when its months meet the window, clamped to it |
| EmployeeBars.UndatedEmployeeSpansWindow | components/employeebars.tsx:93-94 | an employee without a start and without an end year spans the whole window |
| EmployeeBars.BarBox | components/employeebars.tsx:183-186 | the box is at least 60 wide and 8 less high than a row |
| EmployeeBars.RowsDoNotOverlap | components/employeebars.tsx:183-186 | boxes of different rows never overlap vertically |
| EmployeeBars.BarInsideItsMonths | components/employeebars.tsx:135-136 | a bar wider than the minimum sits 2 pixels inside its months' columns on each side |
| EmployeeBars.DisplayName | components/employeebars.tsx:139-141 | without names the position or "TBD" is shown; an empty name appears only when a name field is set |
| EmployeeBars.DisplayNameOfTidyNames | components/employeebars.tsx:139-141 | tidy first and last names are shown joined by one space, or alone |
| EmployeeBars.TrimSpaceAfter | components/employeebars.tsx:140 | a tidy first name followed by the joining space trims back to itself |
| EmployeeBars.TrimSpaceBefore | components/employeebars.tsx:140 | the joining space before a tidy last name trims away |
| EmployeeBars.BarColor | components/employeebars.tsx:144-153 | the colour of the first keyword family the lower-cased position contains: pink for design, blue for engineer or developer, purple for product, amber for marketing, emerald for sales, indigo for ops or operations; blue when none matches |
| EmployeeBars.BarColorIgnoresCase | components/employeebars.tsx:145 | the colour does not depend on the title's case |
| Timeline.MonthWidth | components/timeline.tsx:189 | the month width of either view is positive |
| Timeline.GenerateMonths | components/timeline.tsx:33-47 | `count` keys (none when count ≤ 0), the first the start month's, each month after the previous |
| Timeline.SubtractMonths | components/timeline.tsx:50-60 | the result lies `count` months earlier on the month line, normalised into 1..12 |
| Timeline.AddMonths | components/timeline.tsx:63-73 | the result lies `count` months later on the month line, normalised into 1..12 |
| Timeline.QuarterLabel | components/timeline.tsx:86-90 | `getQuarterLabel`; `QuarterLabelOfKey` shows it is the runway's quarter label on every key |
| Timeline.IsQuarterStart | components/timeline.tsx:93-96 | `month % 3 === 1`; `QuarterAndYearStartsOfKey` shows it holds exactly for months 1, 4, 7 and 10 |
| Timeline.IsYearStart | components/timeline.tsx:99-102 | `month === 1`; `QuarterAndYearStartsOfKey` shows it holds exactly for January |
| Timeline.QuarterLabelOfKey | components/timeline.tsx:86-90 | the label of a month's key is "Q⌈m/3⌉ year", the runway's quarter label |
| Timeline.QuarterAndYearStartsOfKey | components/timeline.tsx:93-102 | a key starts a quarter exactly when its month is 1, 4, 7 or 10, and a year exactly when it is 1 |
| Timeline.AnchorIndex | components/timeline.tsx:219-222 | the anchor index is a position of the window |
| Timeline.AnchorHoldsCenter | components/timeline.tsx:219-222 | the anchor's column holds the viewport centre, unless it is the last month |
| Timeline.ClampScroll | components/timeline.tsx:235 | `max(0, target)` is non-negative, at least the target, and either the target or 0 |
| Timeline.CurrentMonthInWindow | components/timeline.tsx:193-196 | the current month is found at index `-startOffset` |
| Timeline.WindowExpansion | components/timeline.tsx:249-261 | after widening, the old months are a block and each one's index grows by the months prepended |
| Timeline.DropIndicator | components/timeline.tsx:361-370 | a strip exactly when the hovered id is non-empty and a month of the window, over its first occurrence |
| Timeline.DropIndicatorInWindow | components/timeline.tsx:361-370 | over a window month the strip starts at its distance from the first month, times the width |
| Timeline.TimelineView.constructor | components/timeline.tsx:173-180 | offsets -12 and 24: 36 months, the current month at index 12 |
| Timeline.TimelineView.ComputeMonths | components/timeline.tsx:183-187 | `subtractMonths` and `generateMonths` give the window's consecutive months |
| Timeline.TimelineView.CurrentMonthIndex | components/timeline.tsx:193-196 | the current month's index is `-startOffset` |
| Timeline.MountScroll | components/timeline.tsx:201 | the mount scroll position is never negative |
| Timeline.TimelineView.ScrollToCurrentMonth | components/timeline.tsx:199-204 | the scroll position becomes `max(0, index·width - 100)` for the current month's index, which `CurrentMonthIndex` states is `-startOffset` |
| Timeline.TimelineView.HandleScroll | components/timeline.tsx:242-262 | near the left edge 12 months are prepended and 12 widths of adjustment are pending; near the right edge 12 are appended; the old months stay a block shifted by the months prepended |
| Timeline.TimelineView.ApplyPendingScroll | components/timeline.tsx:207-212 | a pending adjustment is added to the scroll position once and reset to 0 |
| Timeline.TimelineView.HandleViewModeChange | components/timeline.tsx:215-226 | the anchor is the window month at the viewport centre in the old width (or the last), then the mode changes |
| Timeline.TimelineView.AnchorEffect | components/timeline.tsx:229-239 | an anchor in the window is scrolled to the centre in the current width (not before 0), and the anchor is cleared |
| Timeline.ScrollAtLeftEdge | components/timeline.tsx:207-262 | a scroll near the left edge and its pending adjustment keep every old month at the same place on the screen: its index grows by 12 and the scroll position by 12 month widths |
| Timeline.ChangeViewMode | components/timeline.tsx:215-239 | a view change and its effect leave the old centre month at the centre in the new width |
| DndContext.CallsFor | components/dnd/dnd-context.tsx:109-120 | which callback serves a payload; `Dispatch` states it picks that one |
| DndContext.Dispatch | components/dnd/dnd-context.tsx:105-121 | a callback exactly when the target and payload exist and the payload's callback was given; it is that payload's callback with the target verbatim |
| DndContext.DndProvider.constructor | components/dnd/dnd-context.tsx:66-67 | nothing is dragged or hovered |
| DndContext.DndProvider.HandleDragStart | components/dnd/dnd-context.tsx:89-94 | the payload is stored only when present |
| DndContext.DndProvider.HandleDragOver | components/dnd/dnd-context.tsx:97-99 | the hovered id replaces `overId` |
| DndContext.DndProvider.HandleDragEnd | components/dnd/dnd-context.tsx:102-126 | at most the dispatched callback fires, and both state fields are cleared |
| RunwayChart.SeenStep | components/RunwayChart.tsx:63-68 | a quarter not seen yet is at its first occurrence, and adding it extends the seen set |
| RunwayChart.TickIndices | components/RunwayChart.tsx:53-71 | indices exactly when quarterly labels are on and data exists; then strictly increasing, each point's quarter at its first occurrence, and every first occurrence listed |
| RunwayChart.FirstOccurrencesCoverOnce | components/RunwayChart.tsx:60-70 | tick indices name every quarter of the data, each once |
| RunwayChart.FirstRunout | components/RunwayChart.tsx:77 | `findIndex(cash <= 0)`: -1 exactly when all cash is positive, else the first such point |
| RunwayChart.RunoutPoint | components/RunwayChart.tsx:74-82 | a run-out point exactly when some point's cash is not positive; it is the axis label of the first one |
| RunwayChart.RunoutOfRunway | components/RunwayChart.tsx:74-82 | on a computed runway the cash can only run out at the last point |
| RunwayChart.Ticks | components/RunwayChart.tsx:110-114 | ticks exactly with data, quarterly labels and tick indices; one per index |
| RunwayChart.TicksOfTickIndices | components/RunwayChart.tsx:110-114 | the ticks are the quarters at the tick indices, all different, and cover every quarter |
| RunwayInputs.KeepDigitsAndCommas | components/RunwayInputs.tsx:72 | the cleaned text keeps only digits and commas and leaves such a text as it is |
| RunwayInputs.RemoveCommas | components/RunwayInputs.tsx:33 | no comma is left; empty exactly for commas only; digits stay digits |
| RunwayInputs.RemoveCommasAppend | components/RunwayInputs.tsx:33 | removing commas distributes over concatenation |
| RunwayInputs.LeadingInteger | components/RunwayInputs.tsx:111-112 | on a run of digits, `parseInt` is its value, and NaN when it is empty |
| RunwayInputs.GroupThousands | components/RunwayInputs.tsx:27-29 | grouping digits never shortens them and yields digits and commas |
| RunwayInputs.RemoveCommasGroupThousands | components/RunwayInputs.tsx:27-36 | removing the commas of grouped digits gives the digits back |
| RunwayInputs.FormatWithCommas | components/RunwayInputs.tsx:27-29 | the sign and the grouped digits; `FormatThenParse` shows `ParseNumber` reads it back |
| RunwayInputs.ParseNumber | components/RunwayInputs.tsx:32-36 | commas removed, then `parseFloat`; `FormatThenParse` and `ParseDigitsAndCommas` state what it reads |
| RunwayInputs.FormatThenParse | components/RunwayInputs.tsx:27-36 | `parseNumber(formatWithCommas(n)) == n`, and the formatted text survives the cleaning |
| RunwayInputs.TrimDigitsAndCommas | components/RunwayInputs.tsx:74 | cleaned cash text is blank exactly when it is empty |
| RunwayInputs.ParseDigitsAndCommas | components/RunwayInputs.tsx:32-36 | digits and commas parse as the digits' value; only commas give NaN |
| RunwayInputs.CashEntry | components/RunwayInputs.tsx:68-92 | the steps of `handleCashChange`; `CashEntryOutcome` states when it clears, rejects and accepts |
| RunwayInputs.CashEntryOutcome | components/RunwayInputs.tsx:68-92 | cleared exactly when nothing is left, rejected exactly for commas only, otherwise the non-negative value shown regrouped |
| RunwayInputs.CommasOnlyRejected | components/RunwayInputs.tsx:81-86 | a commas-only amount is rejected with the text kept |
| RunwayInputs.ShownCashIsStable | components/RunwayInputs.tsx:81-91 | typing back the shown amount accepts the same amount and text |
| RunwayInputs.DateEntry | components/RunwayInputs.tsx:94-126 | cleared exactly for blank text; the format message exactly without one "/"; the month message exactly for a bad month; the year message exactly for a good month and a bad year; an accepted date is in range and is what was read |
| RunwayInputs.AcceptedDateIsValid | components/RunwayInputs.tsx:124-125 | every accepted date passes `validateRunwayInputs` |
| RunwayInputs.DateEntryAccepts | components/RunwayInputs.tsx:105-125 | two parts reading as a month and a year in range are accepted |
| RunwayInputs.SplitDigitsAroundSlash | components/RunwayInputs.tsx:105 | digits around one slash split into exactly those two parts |
| RunwayInputs.DateOfDigits | components/RunwayInputs.tsx:104-125 | digit texts of a month in 1..12 and a year in 2000..2100 around a slash are accepted as that date |
| RunwayInputs.DateTextRoundTrip | components/RunwayInputs.tsx:58-66 | the field's text for a valid date reads back as that date |
| RunwayInputs.RunwayInputsView.constructor | components/RunwayInputs.tsx:38-49 | the fields show the props' texts, with no errors |
| RunwayInputs.RunwayInputsView.ReceiveProps | components/RunwayInputs.tsx:52-66 | a field's text is recomputed only when its props change |
| RunwayInputs.RunwayInputsView.HandleCashChange | components/RunwayInputs.tsx:68-92 | cleared: empty, no error, update with no cash; rejected: text and error, no update; accepted: regrouped text, update with the amount |
| RunwayInputs.RunwayInputsView.HandleDateChange | components/RunwayInputs.tsx:94-126 | the text is kept; cleared and accepted dates are reported; each rejection sets its message and reports nothing |
| Store.SelectSpec | convex/scenarios.ts:12-15 | an index query returns exactly the ids of matching records, in creation order |
| Store.SelectPatch | convex/scenarios.ts:82 | patching a record without changing its index key keeps the query's result |
| Store.SelectInsert | convex/scenarios.ts:56 | an inserted record joins the end of its index |
| Store.SelectRemove | convex/scenarios.ts:112 | deleting a record removes exactly its id from its index |
| Store.SelectRemoveLength | convex/scenarios.ts:103-112 | deleting a listed record shortens its index by one |
| Store.OwnedBy | convex/sharedLinks.ts:88-96 | the owner's employees map holds exactly the owner's records |
| Store.Database.constructor | convex/schema.ts:4-28 | an empty database |
| Store.Database.InsertEmployee | convex/employees.ts:54 | a fresh id above every id in use; only that record is added |
| Store.Database.InsertScenario | convex/scenarios.ts:56 | a fresh id above every id in use; only that record is added |
| Store.Database.InsertScrape | convex/scenarios.ts:243 | a fresh id above every id in use; only that record is added |
| Store.Database.InsertLink | convex/sharedLinks.ts:34 | a fresh id above every id in use; only that record is added |
| Store.Database.ReplaceScenario | convex/scenarios.ts:82 | only that scenario changes |
| Store.Database.ReplaceEmployee | convex/employees.ts:84 | only that employee changes |
| Store.Database.DeleteScenario | convex/scenarios.ts:112 | only that scenario goes |
| Store.Database.DeleteEmployee | convex/employees.ts:116 | only that employee goes |
| Store.Database.InsertEmployees | convex/employees.ts:141-150 | one fresh consecutive id per record, in order; nothing else changes |
| IdLists.RemoveAllKeeps | convex/scenarios.ts:163-166 | filtering keeps only ids outside the set and never lengthens the list |
| IdLists.RemoveAllComplete | convex/scenarios.ts:188-192 | every id outside the set is kept |
| IdLists.RemoveAllNothing | convex/scenarios.ts:188-192 | a list with nothing to remove is kept whole |
| IdLists.RemoveAllAppend | convex/scenarios.ts:188-192 | filtering distributes over concatenation, so order is kept |
| IdLists.RemoveAllNoDuplicates | convex/scenarios.ts:188-192 | filtering keeps a duplicate-free list free of duplicates |
| IdLists.RemoveAllIdempotent | convex/scenarios.ts:188-192 | filtering twice is filtering once |
| IdLists.AppendIfAbsent | convex/scenarios.ts:136-142 | the result contains the id, extends the list by at most it, and holds the old ids and it |
| IdLists.AppendIfAbsentIdempotent | convex/scenarios.ts:136-142 | appending again changes nothing, and no duplicate is created |
| IdLists.AppendNew | convex/scenarios.ts:286-295 | the old list is a prefix, followed by the new candidates in order; the ids are the union |
| IdLists.AppendNewUnchanged | convex/scenarios.ts:286-295 | the list is unchanged exactly when no candidate is new |
| IdLists.AppendNewIdempotent | convex/scenarios.ts:379-388 | adding the same candidates again adds nothing |
| IdLists.AppendNewNoDuplicates | convex/scenarios.ts:286-295 | duplicate-free lists stay so |
| IdLists.Resolve | convex/scenarios.ts:31-40 | records only from the table, never more than ids; all in order when every id resolves |
| IdLists.ResolveAppend | convex/sharedLinks.ts:88-96 | resolution keeps the order of the ids |
| IdLists.ResolveOne | convex/sharedLinks.ts:88-96 | a missing id contributes nothing, a present one its record |
| Scenarios.Authorize | convex/scenarios.ts:75-80 | success exactly for a signed-in owner of an existing scenario; otherwise "Not authenticated" or the not-found message |
| Scenarios.GetScenarios | convex/scenarios.ts:6-17 | nothing signed out; else exactly the caller's scenarios in creation order |
| Scenarios.GetScenarioWithEmployees | convex/scenarios.ts:20-42 | a result exactly for the owner; its records are existing employees, in id order when all exist |
| Scenarios.CreateScenario | convex/scenarios.ts:45-65 | "Not authenticated" signed out; else a fresh scenario with ids [] and isDefault false by default, created = updated = now, appended to the caller's list; the users table is unchanged and the id counter advances by one |
| Scenarios.UpdateScenario | convex/scenarios.ts:68-88 | the owner's scenario is renamed and stamped, nothing else; errors change nothing; the users table and the id counter are unchanged |
| Scenarios.DeleteScenario | convex/scenarios.ts:91-115 | refused when the caller has at most one scenario; else only that scenario goes and employees stay; the users table and the id counter are unchanged |
| Scenarios.AddEmployeeToScenario | convex/scenarios.ts:118-146 | needs both records owned by the caller; appends the id only when absent; idempotent; the users table and the id counter are unchanged |
| Scenarios.RemoveEmployeesFromScenario | convex/scenarios.ts:173-197 | every occurrence of the ids goes, others keep their order; stamped; the users table and the id counter are unchanged |
| Scenarios.RemoveEmployeeFromScenario | convex/scenarios.ts:149-170 | every occurrence of the id goes, others keep their order; stamped; the users table and the id counter are unchanged |
| Scenarios.CreateScenarioFromLinkedIn | convex/scenarios.ts:200-254 | one new employee per person in order; a scenario listing exactly them; a scrape record only with a company URL; the users table is unchanged and the id counter advances by one per record written |
| Scenarios.GetLinkedinScrapes | convex/scenarios.ts:257-269 | nothing signed out; else exactly the caller's imports, newest first |
| Scenarios.Reverse | convex/scenarios.ts:266 | descending order lists the same records, the last first |
| Scenarios.AddEmployeesToScenario | convex/scenarios.ts:272-299 | the old list stays a prefix, the new ids follow in order; nothing is written when none is new; the users table and the id counter are unchanged |
| Scenarios.AddNewIds | convex/scenarios.ts:286-295 | the shared write: new ids appended and stamped, or nothing written |
| Scenarios.AddEmployeesFromLinkedIn | convex/scenarios.ts:302-357 | new employees appended to the owner's scenario in order, with a scrape record; the users table is unchanged and the id counter advances by one per record written |
| Scenarios.CopyEmployeesFromScenario | convex/scenarios.ts:360-392 | target checked before source; the target gains the source's new ids in order; nothing written when none is new; the users table and the id counter are unchanged |
| Scenarios.WithFinancials | convex/scenarios.ts:412-416 | supplied financial fields replace, absent ones stay, `updatedAt` becomes now, and nothing else changes |
| Scenarios.WithFinancialsIdempotent | convex/scenarios.ts:412-416 | sending the same settings again changes only the update time |
| Scenarios.WithNoFinancials | convex/scenarios.ts:412-416 | an empty update only stamps |
| Scenarios.UpdateScenarioFinancials | convex/scenarios.ts:395-419 | the owner's scenario gets the supplied fields and the stamp; errors change nothing; the users table and the id counter are unchanged |
| Employees.GetEmployees | convex/employees.ts:6-17 | nothing signed out; else exactly the caller's employees in creation order |
| Employees.GetEmployeesByIds | convex/employees.ts:20-36 | only existing records of the caller, in request order; all of them when every id is the caller's |
| Employees.CreateEmployee | convex/employees.ts:39-59 | "Not authenticated" signed out; else a fresh record of the caller with the fields; the users table is unchanged and the id counter advances by one |
| Employees.Patch | convex/employees.ts:83-84 | supplied fields replace, the rest stay; `PatchIdentity`, `PatchIdempotent` and `PatchCompose` state its laws |
| Employees.PatchIdentity | convex/employees.ts:83-84 | an empty patch changes nothing, and a patch over nothing is the patch |
| Employees.PatchIdempotent | convex/employees.ts:83-84 | patching twice with the same fields is patching once |
| Employees.PatchCompose | convex/employees.ts:83-84 | two patches are one patch with the later fields winning |
| Employees.UpdateEmployee | convex/employees.ts:62-87 | fails exactly unless the caller owns the record; patches only the supplied fields; the users table and the id counter are unchanged |
| Employees.UnlistFromAll | convex/employees.ts:101-114 | the cascade over the user's scenarios; `UnlistFromAllSpec` states its effect |
| Employees.UnlistFromAllSpec | convex/employees.ts:101-114 | no scenario of the user lists the id; other ids keep order; other scenarios untouched |
| Employees.UnlistedEverywhere | convex/employees.ts:101-114 | unlisting from exactly the user's scenarios is the cascade |
| Employees.UnlistFromScenarios | convex/employees.ts:101-114 | the loop performs the cascade over the user's scenarios |
| Employees.DeleteEmployee | convex/employees.ts:90-119 | fails exactly unless the caller owns the record; else cascade, then the record is gone; the users table and the id counter are unchanged |
| Employees.BulkCreateEmployees | convex/employees.ts:122-152 | one fresh id per input, in order, each record the caller's; the users table is unchanged and the id counter advances by one per input |
| SharedLinks.GenerateToken | convex/sharedLinks.ts:6-13 | 16 characters, all from the 62-letter alphabet |
| SharedLinks.GetMySharedLink | convex/sharedLinks.ts:45-58 | a token exactly when the caller has a link, and it is the token of the caller's oldest link, as `.first()` on the `by_user` index |
| SharedLinks.CreateOrGetSharedLink | convex/sharedLinks.ts:16-42 | an existing token is returned with nothing written; else exactly one new link; either way asking again returns it; the users table is unchanged and the id counter advances only when a link is written |
| SharedLinks.OwnerName | convex/sharedLinks.ts:100 | name, else email, else "Anonymous" |
| SharedLinks.GetSharedData | convex/sharedLinks.ts:61-106 | `getSharedData`; `SharedDataIsTheOwners` states it shows exactly the owner's data |
| SharedLinks.SharedDataIsTheOwners | convex/sharedLinks.ts:61-106 | data exactly for a known token; every scenario shown is the owner's, all of them are shown, every employee is the owner's |
| ApifyClient.NormalizeCompanyUrl | lib/api/apify-client.ts:150-161 | the LinkedIn rewrite, else one trailing slash removed (`StripTrailingSlash`) |
| ApifyClient.StripTrailingSlash | lib/api/apify-client.ts:158-160 | at most one trailing slash is removed, exactly when there is one |
| ApifyClient.StripTrailingSlashOnce | lib/api/apify-client.ts:158-160 | a URL ending in two slashes keeps one; stripping twice strips once |
| ApifyClient.FirstMatch | lib/api/apify-client.ts:134-145 | the first matching position, or none when no position matches |
| ApifyClient.ResolveCurrentPosition | lib/api/apify-client.ts:123-148 | none exactly without positions; a matching position when one exists; else the first position |
| ApifyClient.ResolveChoosesFirstMatch | lib/api/apify-client.ts:134-147 | the first match wins even when a later one matches |
| ApifyClient.Filter | lib/api/apify-client.ts:117-120 | the filter keeps only passing items and never lengthens |
| ApifyClient.FilterAppend | lib/api/apify-client.ts:117-120 | filtering distributes over concatenation |
| ApifyClient.FilterMembers | lib/api/apify-client.ts:117-120 | exactly the passing items are kept |
| ApifyClient.Mapped | lib/api/apify-client.ts:101-116 | one candidate per profile, in order |
| ApifyClient.MapToFiltered | lib/api/apify-client.ts:96-121 | map then filter; `MapToFilteredMembers` and `MapToFilteredAppend` state what is kept and in which order |
| ApifyClient.MapToFilteredMembers | lib/api/apify-client.ts:96-121 | never longer than the input; exactly the candidates with a start month and year |
| ApifyClient.MapToFilteredAppend | lib/api/apify-client.ts:96-121 | input order is kept: two batches map to the two results joined |
| CurrentScenario.Get | hooks/use-current-scenario.ts:13 | none exactly when no pair has the name; else a value paired with it |
| CurrentScenario.Delete | hooks/use-current-scenario.ts:26 | no pair with the name remains, and the others are from the original |
| CurrentScenario.GetDelete | hooks/use-current-scenario.ts:24-26 | after a delete the name is gone and other names read as before |
| CurrentScenario.SetParam | hooks/use-current-scenario.ts:23 | `params.set`; `GetSetParam` and `SetParamSingle` state what it reads and keeps |
| CurrentScenario.GetSetParam | hooks/use-current-scenario.ts:23 | after a set the name reads as the value and other names as before |
| CurrentScenario.SetParamSingle | hooks/use-current-scenario.ts:23 | after a set only one pair has the name |
| CurrentScenario.NonEmptyParts | hooks/use-current-scenario.ts:16 | the non-empty pieces, drawn from the input |
| CurrentScenario.NonEmptyPartsKeepsAll | hooks/use-current-scenario.ts:16 | pieces with nothing empty pass whole |
| CurrentScenario.ScenarioIdsOf | hooks/use-current-scenario.ts:16 | split at commas, empty pieces dropped; `ScenarioIdsRoundTrip` shows it reads back stored ids |
| CurrentScenario.ScenarioIdsRoundTrip | hooks/use-current-scenario.ts:34-46 | non-empty ids without commas read back as themselves |
| CurrentScenario.ScenarioSelection.constructor | hooks/use-current-scenario.ts:8 | the selection holds the given parameters |
| CurrentScenario.ScenarioSelection.SetCurrentScenarioId | hooks/use-current-scenario.ts:19-31 | an id sets `scenario` and removes `scenarios`; none removes `scenario`; other names are kept |
| CurrentScenario.ScenarioSelection.SetScenarioIds | hooks/use-current-scenario.ts:34-46 | non-empty ids set the join and remove `scenario`; empty removes `scenarios`; others kept; well-formed ids read back |
| AppSidebar.Untitled | components/app-sidebar.tsx:61-69 | the first candidate is the base name, later ones the base name, a space and the counter |
| AppSidebar.UntitledInjective | components/app-sidebar.tsx:67-70 | different counters give different names |
| AppSidebar.Names | components/app-sidebar.tsx:66 | exactly the listed scenarios' names |
| AppSidebar.TriedNext | components/app-sidebar.tsx:67-70 | each counter tries a name not tried before |
| AppSidebar.UniqueName | components/app-sidebar.tsx:61-71 | the name is not taken, and it is the base name or the least free numbered name; the loop terminates |
| AppSidebar.Remaining | components/app-sidebar.tsx:86 | the other scenarios, drawn from the list |
| AppSidebar.RemainingFirst | components/app-sidebar.tsx:86-88 | none remain exactly when all have the id; else the first remaining is the first other one |
| AppSidebar.NextSelection | components/app-sidebar.tsx:85-91 | none exactly when no other scenario exists; else the first other one |
| AppSidebar.Sidebar.constructor | components/app-sidebar.tsx:38-40 | not creating, not renaming, nothing sent |
| AppSidebar.Sidebar.ReceiveScenarios | components/app-sidebar.tsx:45-53 | an empty loaded list requests "My Scenario" |
| AppSidebar.Sidebar.FinishAutoCreate | components/app-sidebar.tsx:49-51 | the created scenario becomes the selection |
| AppSidebar.Sidebar.BeginCreateScenario | components/app-sidebar.tsx:55-73 | nothing while creating; else creating, with a request for a name not taken |
| AppSidebar.Sidebar.FinishCreateScenario | components/app-sidebar.tsx:73-79 | creating ends; a new id becomes the selection |
| AppSidebar.Sidebar.DeleteScenario | components/app-sidebar.tsx:82-98 | deleting the selection moves it to the first other scenario or none; else the selection stays; the delete is sent |
| AppSidebar.Sidebar.StartRenaming | components/app-sidebar.tsx:100-105 | only the selected scenario enters renaming, with its name |
| AppSidebar.Sidebar.EditName | components/app-sidebar.tsx:162 | the field holds the typed name |
| AppSidebar.Sidebar.BeginRenameSave | components/app-sidebar.tsx:107-111 | nothing without a scenario being renamed; a blank name ends renaming unsaved; otherwise the trimmed non-empty name is sent |
| AppSidebar.Sidebar.FinishRenameSave | components/app-sidebar.tsx:110-112 | a completed update ends renaming; a failed one does not |
| AppSidebar.Sidebar.RenameKeyDown | components/app-sidebar.tsx:115-122 | Enter does exactly what `BeginRenameSave` does in each of its three cases; Escape ends renaming without sending; other keys do nothing |
| EditableCell.ValueTextEmpty | components/editable-cell.tsx:124 | the value's text is empty exactly when the value counts as empty |
| EditableCell.DisplayValue | components/editable-cell.tsx:108-122 | the placeholder exactly for an empty value; dollars exactly for a number in a currency cell; else the non-empty text |
| EditableCell.SaveRequest | components/editable-cell.tsx:70-77 | what a save sends; `SaveRequestSpec` states when it sends and what |
| EditableCell.SaveRequestSpec | components/editable-cell.tsx:70-77 | nothing is sent exactly when the trimmed draft is the value's text; what is sent differs from it and is trimmed |
| EditableCell.UntouchedSaveIsSilent | components/editable-cell.tsx:70-74 | saving an untouched draft sends nothing |
| EditableCell.Cell.constructor | components/editable-cell.tsx:24-26 | not editing, not saving, the draft the value's text |
| EditableCell.Cell.SyncEffect | components/editable-cell.tsx:33-37 | while not editing the draft is the value's text |
| EditableCell.Cell.ReceiveValue | components/editable-cell.tsx:33-37 | a new value reaches the draft unless editing |
| EditableCell.Cell.Click | components/editable-cell.tsx:58-65 | editing starts unless saving, from an empty draft when asked |
| EditableCell.Cell.Edit | components/editable-cell.tsx:145 | the draft holds the typed text |
| EditableCell.Cell.BeginSave | components/editable-cell.tsx:67-77 | nothing while saving; an unchanged draft ends editing; a changed one sends the trimmed text and waits |
| EditableCell.Cell.FinishSave | components/editable-cell.tsx:78-85 | a failure restores the original text; saving and editing end either way |
| EditableCell.Cell.Cancel | components/editable-cell.tsx:88-91 | the draft is the value's text again and editing ends |
| EditableCell.Cell.KeyDown | components/editable-cell.tsx:93-101 | Enter does exactly what `BeginSave` does in each of its three cases; Escape cancels, leaving the save flag; other keys do nothing |
| EditableCell.Cell.Blur | components/editable-cell.tsx:103-105 | leaving the field does exactly what `BeginSave` does in each of its three cases |
| EditableCell.SettleSave | components/editable-cell.tsx:33-37 | after a save settles and the effect runs, editing has ended and the draft is the value's text, whether the save succeeded or failed |
| EditableCell.SaveUnchanged | components/editable-cell.tsx:33-37 | saving an unchanged draft and running the effect leaves the draft exactly the value's text |

## Left out

- Rendering, DOM measurement, CSS and focus handling are not modelled; they have nothing to state. This covers the width and focus effects of the editable cell, the chart and table configuration, and the sidebar's markup.
- Locale formatting is not modelled:
  - The month label `formatMonthYear` is kept as the month and year it formats.
  - `formatCurrency` and the currency display of a cell: a dollar amount is kept as the number.
  - The axis formatter.
  - `formatWithCommas` is modelled as "en-US" grouping of an integer.
- Floating point is not modelled: salaries, cash and amounts are integers.
  - RunwayInputs.LeadingInteger: reads only an optional sign and leading digits. Decimal points, exponents, hex and Infinity are not modelled.
  - RunwayCalculations.CalculateMonthlyBurn: sums exact integers, without floating-point rounding.
- Timers, debouncing and the share button's copy timeout are left out; they are timing.
- Drag-and-drop sensors and `useDraggable`/`useDroppable` are library gesture recognition. Only the provider's state and dispatch are modelled.
- URL parsing of LinkedIn company URLs is not modelled. The LinkedIn rewriting is the parameter `canonical`; only the fallback that strips a slash is defined.
- `fetchCompanyEmployees` and the HTTP route are network calls and are not part of this model.
- Authentication is the caller as an optional id. Router navigation is the parameter list being replaced. `getShareableUrl` reads the browser's location and is left out.
- `Date.now()` is the parameter `now`, one reading per mutation.
- `Math.random` in `generateToken` is a choice the model leaves open.
- SharedLinks.CreateOrGetSharedLink: does not state that tokens are unique across users, because the source never checks that.
- Concurrency between Convex mutations and the ordering of `Promise.all` are not modelled; each mutation is one atomic step.
- AppSidebar.Sidebar.ReceiveScenarios: models one firing of the auto-create effect per received list. React re-running the effect while the create is in flight is not modelled.
- The timeline's scroll container is taken as always mounted: the `scrollContainerRef.current` checks in the scroll effects and handlers (components/timeline.tsx:200, 208, 216, 230, 243) are not modelled.
- Timeline.AddMonths: `addMonths` is defined in the source but not called by the timeline. It is modelled on its own, and nothing else uses it.
- The employee records stored by the backend have no end dates. Those on the timeline may, and the layout reads them from its own employee type.
- The application's move and resize handlers that change an employee's dates are not part of these files.
- Text.ToLower: lower-cases ASCII letters only, not the full Unicode case mapping.
- Text.NumberOf: models `Number` only on the empty text and runs of decimal digits, the pieces month keys split into. Surrounding white space, signs, decimal points, exponents, `0x`/`0b`/`0o` prefixes and `Infinity` all give NaN in the model, although `Number` reads them.
- The editable cell's `[value, editing]` effect is its own step, `Cell.SyncEffect`, which a caller runs after a handler. `SettleSave` and `SaveUnchanged` compose it with the save handlers.
