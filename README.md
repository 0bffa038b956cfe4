# AWS billing report Lambda — Dafny model

This project models the data-shaping core of the billing-report Lambda
function `lambda_handler` (`demos/Lambda/lambda/lambda_function.py`). Given
the current time and the Cost Explorer reply for the month, the handler:

- works out the reporting period: the first day of the current month, and
  the earlier of "now" and the day before the first of the next month, with
  a December → January rollover;
- keeps the per-service groups whose blended cost is positive, as
  `(service name, cost)` entries in reply order;
- sorts them by cost, descending, with Python's stable sort;
- takes the five most expensive, sums all entries into the total, and sums
  the rest into an "Other Services" bucket;
- assembles the report line by line, with service names longer than 35
  characters cut to 32 characters plus "...";
- answers status 200 with the report, or status 500 when anything raised.

Modules, one per concern of the handler:

- `Wrappers` (`wrappers.dfy`): `Option` and `Result`.
- `Calendar` (`calendar.dfy`): Python `datetime` dates (years 1 to 9999,
  leap years, ordinal day numbers) and the period computation.
- `Costs` (`costs.dfy`): filtering, the stable descending sort, the top-five
  split and the sums. The filter loop and the sort are methods with loops,
  proved against the specification functions `Kept` and `SortDesc`.
- `Report` (`report.dfy`): the report lines. `BuildReport` appends them one
  by one as the handler does and is proved equal to `ReportLines`, about
  which the structural lemmas are stated.
- `Handler` (`handler.dfy`): `LambdaHandler`, the whole handler with its
  error paths, and lemmas about the finished report.

Costs are `real`: the properties are about filtering, ordering, partition
and sums, so float rounding is not modelled. "Now" is a parameter; its time
of day is one `micros` field, because `replace(day=1)` keeps the time and
`min` compares whole datetimes. One consequence the model proves
(`Calendar.PeriodEndIsNow`): the `min` on line 23 always picks `now`, so the
period always ends today.

A year-9999 edge case is kept: in December 9999, `replace(year=now.year + 1)`
raises, and the handler answers 500 (`Calendar.NextMonthStart` returns
`None`, `Handler.LambdaHandler` returns `ErrorBody(YearOutOfRange)`).

## Model

| member | source | states |
|---|---|---|
| `Calendar.StartOfMonth` | demos/Lambda/lambda/lambda_function.py:15 | the first of the month is a valid datetime in the same year and month, with the same time of day, whose ordinal is `now.day - 1` days before today's |
| `Calendar.NextMonthStart` | demos/Lambda/lambda/lambda_function.py:18-21 | December rolls over to January 1 of the next year, any other month to day 1 of the next month, same time of day; the result is absent (the call raises) exactly in December of year 9999 |
| `Calendar.NextMonthStartOrdinal` | demos/Lambda/lambda/lambda_function.py:18-21 | the next month's first day is exactly `DaysInMonth(year, month)` days after the current month's first day, leap years included |
| `Calendar.DayBefore` | demos/Lambda/lambda/lambda_function.py:23 | subtracting one day from any valid datetime after 0001-01-01 gives a valid datetime with the same time of day |
| `Calendar.DayBeforeOrdinal` | demos/Lambda/lambda/lambda_function.py:23 | subtracting one day lowers the ordinal day number by exactly one, across month and year boundaries |
| `Calendar.Before` | demos/Lambda/lambda/lambda_function.py:23 | the datetime `<` behind `min`: on valid datetimes, `a < b` exactly when `a` falls on an earlier day number, or on the same day at an earlier time of day |
| `Calendar.OrdinalOrder` | demos/Lambda/lambda/lambda_function.py:23 | a date that comes earlier in year, month, day order has a strictly smaller ordinal day number |
| `Calendar.EarlierOf` | demos/Lambda/lambda/lambda_function.py:23 | `min` returns one of its arguments and neither argument is earlier than it |
| `Calendar.PeriodEnd` | demos/Lambda/lambda/lambda_function.py:17-23 | the period end exists exactly when the next month's start can be computed |
| `Calendar.LastDayOfMonth` | demos/Lambda/lambda/lambda_function.py:18-23 | the day before the next month's first day is the last day of the current month, at the time of day of `now` |
| `Calendar.PeriodEndIsNow` | demos/Lambda/lambda/lambda_function.py:14-23 | the period end is always `now`, and the start of the month is not after it |
| `Costs.FaultOf` | demos/Lambda/lambda/lambda_function.py:48-49 | a group raises exactly when it has no service key or its amount is not a number; the missing key is reported first |
| `Costs.Kept` | demos/Lambda/lambda/lambda_function.py:47-56 | the kept list has no more entries than there are groups, and every kept cost is positive |
| `Costs.KeptMembers` | demos/Lambda/lambda/lambda_function.py:47-56 | an entry is kept if and only if some group with a positive cost records it as (`Keys[0]`, amount) |
| `Costs.KeptAppend` | demos/Lambda/lambda/lambda_function.py:47-56 | filtering distributes over concatenation of group lists, so kept entries stay in input order |
| `Costs.ExtractServiceCosts` | demos/Lambda/lambda/lambda_function.py:42-56 | the loop succeeds exactly when every group is readable, and then yields the kept list; otherwise it reports the fault of the first unreadable group |
| `Costs.InsertDescPermutes` | demos/Lambda/lambda/lambda_function.py:59 | inserting an entry adds exactly that entry to the multiset |
| `Costs.InsertDescSorted` | demos/Lambda/lambda/lambda_function.py:59 | inserting into a list sorted by descending cost keeps it sorted |
| `Costs.SortDesc` | demos/Lambda/lambda/lambda_function.py:59 | the stable descending insertion sort that `sort(key=cost, reverse=True)` stands for has as many entries as its input; its ordering, permutation and stability are the three lemmas beside it |
| `Costs.SortDescPermutes` | demos/Lambda/lambda/lambda_function.py:59 | the sorted list is a permutation of the input (same multiset) |
| `Costs.SortDescSorted` | demos/Lambda/lambda/lambda_function.py:59 | the sorted list has non-increasing costs |
| `Costs.InsertDescWithCost` | demos/Lambda/lambda/lambda_function.py:59 | inserting an entry appends it after the existing entries of equal cost |
| `Costs.SortDescStable` | demos/Lambda/lambda/lambda_function.py:59 | for every cost, the entries with that cost keep their original relative order (stability of `sort(reverse=True)`) |
| `Costs.SortByCost` | demos/Lambda/lambda/lambda_function.py:59 | the insertion-sort loop yields the stable descending sort: sorted, a permutation of the input |
| `Costs.TopFive` | demos/Lambda/lambda/lambda_function.py:60 | the top five are the first min(5, n) entries of the list |
| `Costs.Rest` | demos/Lambda/lambda/lambda_function.py:93 | `service_costs[5:]` has n − 5 entries when n > 5, none otherwise, and they are the entries from index 5 on |
| `Costs.TopFiveThenRest` | demos/Lambda/lambda/lambda_function.py:60-93 | the top five followed by the rest is the whole list |
| `Costs.TopFiveDominates` | demos/Lambda/lambda/lambda_function.py:59-60 | in the sorted list no listed service costs less than an unlisted one |
| `Costs.SplitSum` | demos/Lambda/lambda/lambda_function.py:63 | the sum of the top five plus the sum of the rest equals the total |
| `Costs.Sum` | demos/Lambda/lambda/lambda_function.py:63 | Python's `sum` (also on line 93): the costs added left to right, 0.0 for the empty list; a list of non-negative costs has a non-negative sum |
| `Costs.SortDescSum` | demos/Lambda/lambda/lambda_function.py:59-63 | sorting does not change the total |
| `Costs.SumBounds` | demos/Lambda/lambda/lambda_function.py:63 | with positive costs, a non-empty list has a positive total and each cost is at most the total |
| `Costs.AllPositiveSorted` | demos/Lambda/lambda/lambda_function.py:52-59 | sorting keeps every cost positive |
| `Report.Repeat` | demos/Lambda/lambda/lambda_function.py:67 | `c * n` has length n and every character is c |
| `Report.FixedText` | demos/Lambda/lambda/lambda_function.py:67-69 | a rule line is 60 copies of its fill character |
| `Report.DisplayName` | demos/Lambda/lambda/lambda_function.py:84-85 | a shown name has at most 35 characters; a name of at most 35 characters is unchanged; a longer one becomes its first 32 characters and "...", exactly 35 in all |
| `Report.DisplayNameIdempotent` | demos/Lambda/lambda/lambda_function.py:84-85 | shortening a shown name again changes nothing |
| `Report.Percentage` | demos/Lambda/lambda/lambda_function.py:80 | the share is 0 when the total is not positive |
| `Report.PercentageBounds` | demos/Lambda/lambda/lambda_function.py:80 | a positive cost at most the total has a share in (0, 100] |
| `Report.Row` | demos/Lambda/lambda/lambda_function.py:79-87 | one row holds the given rank and the service's cost, a name of at most 35 characters, and a share of 0 when the total is not positive |
| `Report.Rows` | demos/Lambda/lambda/lambda_function.py:78-87 | the listing has exactly one row per listed service |
| `Report.Header` | demos/Lambda/lambda/lambda_function.py:66-72 | the header is six lines: a rule, the title with the current month's name and year, a rule, the period, the total cost and an empty line |
| `Report.OtherSection` | demos/Lambda/lambda/lambda_function.py:92-98 | the "Other Services" line and its rule are present only beyond five services; the line counts n − 5 services and its cost plus the top-five sum is the total |
| `Report.ReportLines` | demos/Lambda/lambda/lambda_function.py:66-104 | the report, line by line in the order the handler appends them, has at least 8 lines and opens and closes with a `=` rule |
| `Report.ListServices` | demos/Lambda/lambda/lambda_function.py:78-87 | the enumerating loop, with its inline share and name truncation, yields one row per listed service, ranked from 1, each with its shortened name, cost and share |
| `Report.BuildReport` | demos/Lambda/lambda/lambda_function.py:66-104 | building the lines one append at a time yields `ReportLines`: header, then either the no-data line or the listing, then the closing rule |
| `Report.ReportTotalLine` | demos/Lambda/lambda/lambda_function.py:63-71 | the fifth line carries the sum of all costs in the list |
| `Report.ReportFramed` | demos/Lambda/lambda/lambda_function.py:67-69 | the report has at least 8 lines; its first and last lines are 60 '=' characters |
| `Report.ReportWithoutServices` | demos/Lambda/lambda/lambda_function.py:74-102 | with no kept service the report is 8 lines, says "No billing data found for this period." and has no "TOP 5" heading, no service row and no service count |
| `Report.ReportRowPositions` | demos/Lambda/lambda/lambda_function.py:74-88 | with services, a line is a service row exactly when it is one of the k = min(5, n) lines after the header, the heading and its rule |
| `Report.ReportRows` | demos/Lambda/lambda/lambda_function.py:74-88 | with services, the rows are exactly lines 8 to 8+k−1 for k = min(5, n), numbered 1..k, each showing the i-th service's shortened name, cost and share |
| `Report.ReportOthers` | demos/Lambda/lambda/lambda_function.py:92-100 | the "Other Services" line appears if and only if n > 5; it counts n − 5 services and its cost plus the top-five sum is the total; a non-empty report ends its body with "Total Services: n" |
| `Report.RowShares` | demos/Lambda/lambda/lambda_function.py:78-87 | with positive costs, every row's share lies in (0, 100] |
| `Handler.LambdaHandler` | demos/Lambda/lambda/lambda_function.py:5-131 | 200 goes with a report and 500 with an error; December 9999, a failed Cost Explorer call and an unreadable group each give 500 with that cause; otherwise 200 with the report of the sorted kept services for the period from the first of the month to today |
| `Handler.ReplyGroups` | demos/Lambda/lambda/lambda_function.py:44-45 | only the first period's groups are read; an empty `ResultsByTime` yields no groups rather than an error |
| `Handler.SortedEntryFromGroup` | demos/Lambda/lambda/lambda_function.py:47-59 | every entry of the sorted list has a positive cost and is the (`Keys[0]`, amount) of some group |
| `Handler.RowsComeFromPositiveGroups` | demos/Lambda/lambda/lambda_function.py:47-87 | every service row shows a positive cost read from some group, under that group's shortened name, so a group with cost ≤ 0 never appears |
| `Handler.ReportTotals` | demos/Lambda/lambda/lambda_function.py:63-100 | the total line carries the sum over all kept services, not just the top five, and the last body line counts all kept services |
| `Handler.ReportSharesInRange` | demos/Lambda/lambda/lambda_function.py:78-87 | in the handler's report every listed share lies in (0, 100] |

## Left out

- The boto3 Cost Explorer client and the `get_cost_and_usage` request (lines 11, 26-39): remote calls into a library that is not part of this model. Their outcome is the `reply` parameter; a raised call is `Failure(message)`. The request's time period and grouping arguments are not modelled.
- `datetime.now()` (line 14): "now" is a parameter. Time zones and `fold` are not modelled.
- `strftime` (lines 15, 23, 68): the period line holds dates rather than text; the title holds the month name and the year.
- Float parsing of `Amount` (line 49): an amount is a `real`, or `None` when it is not a number. Float rounding, `nan` and `inf` are not modelled.
- Number formatting and padding (lines 71, 87, 97): `:.2f`, `:>8.2f`, `:>5.1f` and `:<35`. Lines that depend on them are kept as structured values.
- `"\n".join(output_lines)` (line 107): the body is the list of lines.
- The error text (lines 114-127): the error body carries only the cause of the failure.
- Other faults in the reply's shape: a missing `ResultsByTime`, `Groups`, `Metrics` or `BlendedCost` key raises `KeyError` (500), but the reply datatype always has these fields. A group without a `Keys` key is folded into the empty-keys fault `MissingServiceKey`, and a group without an `Amount` key into `AmountNotANumber`. Every one of these ends in status 500, as in the source; only the recorded cause can differ.
- `Handler.LambdaHandler`: the client is created (line 11) before the dates are computed (lines 18-21), but the model checks the December-9999 rollover before looking at the reply. When both fail, the source reports the client's error and the model reports `YearOutOfRange`; the status is 500 either way.
- `Costs.SortByCost`: the list is sorted in place with Timsort in the source. The model returns a new sequence from an insertion sort. The list is local to the handler, so nothing else observes it. The model's sort is proved sorted, a permutation of its input and stable, which is what the source's sort promises.
- demos/ECS/diagram-code.py is not part of this model: it only declares an architecture diagram.
- demos/ECS/app/index.js is not part of this model: it is a one-route HTTP server with a constant response.
