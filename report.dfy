/**
  The text report the handler assembles line by line. Lines whose text
  depends on numbers or dates are kept structured (the float and date
  formatting is not modelled); fixed lines are kept as their text.
 */
module Report {
  import opened Calendar
  import opened Costs

  const RuleWidth := 60
  /** Longest service name shown in full. */
  const NameWidth := 35
  /** Characters kept of a longer name, before the ellipsis. */
  const KeptPrefix := 32
  const Ellipsis := "..."
  const TopHeading := "TOP 5 SERVICES BY COST:"
  const NoDataMessage := "No billing data found for this period."
  /** What `strftime('%B')` shows for months 1 to 12. */
  const MonthNames := ["January", "February", "March", "April", "May", "June", "July",
                       "August", "September", "October", "November", "December"]

  datatype Line =
    | Text(text: string)
      /** 60 copies of `fill`: `"=" * 60` or `"-" * 60` */
    | Rule(fill: char)
      /** "AWS BILLING REPORT - <month name> <year>" */
    | Title(monthName: string, year: int)
      /** "Report Period: <start> to <end>" */
    | Period(start: Date, end: Date)
      /** "Total Monthly Cost: $<total>" */
    | TotalCost(total: real)
      /** "<rank>. <name padded to 35> $<cost> (<percentage>%)" */
    | ServiceRow(rank: int, name: string, cost: real, percentage: real)
      /** "Other Services (<count>): $<cost> (<percentage>%)" */
    | OtherServices(count: int, cost: real, percentage: real)
      /** "Total Services: <count>" */
    | ServiceCount(count: int)

  /** `c * n` on a one-character string. */
  function Repeat(c: char, n: nat): (r: string)
    ensures |r| == n
    ensures forall i :: 0 <= i < n ==> r[i] == c
  {
    if n == 0 then "" else Repeat(c, n - 1) + [c]
  }

  /** The text of a line, for the lines whose text does not depend on
      number or date formatting. */
  function FixedText(l: Line): (t: string)
    requires l.Text? || l.Rule?
    ensures l.Rule? ==> |t| == RuleWidth && forall i :: 0 <= i < |t| ==> t[i] == l.fill
  {
    if l.Rule? then Repeat(l.fill, RuleWidth) else l.text
  }

  /** A name longer than 35 characters is cut to its first 32 followed by "...". */
  function DisplayName(name: string): (shown: string)
    ensures |shown| <= NameWidth
    ensures |name| <= NameWidth ==> shown == name
    ensures |name| > NameWidth ==>
      |shown| == NameWidth && shown[..KeptPrefix] == name[..KeptPrefix] && shown[KeptPrefix..] == Ellipsis
  {
    if |name| > NameWidth then name[..KeptPrefix] + Ellipsis else name
  }

  /** Shortening a shown name again changes nothing. */
  lemma DisplayNameIdempotent(name: string)
    ensures DisplayName(DisplayName(name)) == DisplayName(name)
  {
  }

  /** `cost / total * 100`, or 0 when the total is not positive. */
  function Percentage(cost: real, total: real): (p: real)
    ensures total <= 0.0 ==> p == 0.0
  {
    if total > 0.0 then cost / total * 100.0 else 0.0
  }

  /** A positive cost that is part of the total is a share in (0, 100]. */
  lemma PercentageBounds(cost: real, total: real)
    requires 0.0 < cost <= total
    ensures 0.0 < Percentage(cost, total) <= 100.0
  {
    var q := cost / total;
    assert q * total == cost;
    if q > 1.0 {
      var e := q - 1.0;
      assert e * total > 0.0;
      assert e * total == q * total - total;
    }
    assert Percentage(cost, total) == q * 100.0;
  }

  /** One numbered row: the rank, the shortened name, the cost and its share. */
  function Row(rank: int, entry: ServiceCost, total: real): (line: Line)
    ensures line.ServiceRow? && line.rank == rank && line.cost == entry.cost
    ensures |line.name| <= NameWidth
    ensures total <= 0.0 ==> line.percentage == 0.0
  {
    ServiceRow(rank, DisplayName(entry.service), entry.cost, Percentage(entry.cost, total))
  }

  /** The numbered rows for the listed services, ranks from 1. */
  function Rows(top: seq<ServiceCost>, total: real): (rows: seq<Line>)
    ensures |rows| == |top|
  {
    seq(|top|, i requires 0 <= i < |top| => Row(i + 1, top[i], total))
  }

  /** The title block: framed month title, the period and the total. */
  function Header(now: DateTime, start: Date, end: Date, total: real): (h: seq<Line>)
    requires 1 <= now.month <= 12
    ensures |h| == 6
    ensures h[0] == Rule('=') && h[2] == Rule('=')
    ensures h[1] == Title(MonthNames[now.month - 1], now.year)
    ensures h[3] == Period(start, end) && h[4] == TotalCost(total)
    ensures h[5] == Text("")
  {
    [Rule('='), Title(MonthNames[now.month - 1], now.year), Rule('='),
     Period(start, end), TotalCost(total), Text("")]
  }

  /** The "Other Services" line and its rule, present only beyond five services. */
  function OtherSection(costs: seq<ServiceCost>, total: real): (o: seq<Line>)
    ensures |o| == if |costs| > TopCount then 2 else 0
    ensures |costs| > TopCount ==>
      && o[0].OtherServices? && o[0].count == |costs| - TopCount
      && Sum(TopFive(costs)) + o[0].cost == Sum(costs)
      && o[1] == Rule('-')
  {
    SplitSum(costs);
    if |costs| > TopCount then
      [OtherServices(|costs| - TopCount, Sum(Rest(costs)), Percentage(Sum(Rest(costs)), total)), Rule('-')]
    else []
  }

  /** The whole report for the sorted service list `costs`, in the order
      the handler appends its lines. */
  function ReportLines(now: DateTime, start: Date, end: Date, costs: seq<ServiceCost>): (lines: seq<Line>)
    requires 1 <= now.month <= 12
    ensures 8 <= |lines| && lines[0] == Rule('=') && lines[|lines| - 1] == Rule('=')
  {
    var total := Sum(costs);
    if costs == [] then
      Header(now, start, end, total) + [Text(NoDataMessage)] + [Rule('=')]
    else
      Header(now, start, end, total) + [Text(TopHeading)] + [Rule('-')]
      + Rows(TopFive(costs), total) + [Rule('-')] + OtherSection(costs, total)
      + [ServiceCount(|costs|)] + [Rule('=')]
  }

  /** The enumerating loop over the top five: one numbered row per service,
      with the share of the total and the name cut to 35 characters. */
  method ListServices(top: seq<ServiceCost>, total: real) returns (rows: seq<Line>)
    ensures rows == Rows(top, total)
  {
    rows := [];
    for i := 0 to |top|
      invariant rows == Rows(top, total)[..i]
    {
      var cost := top[i].cost;
      var percentage := if total > 0.0 then cost / total * 100.0 else 0.0;
      var name := top[i].service;
      if |name| > NameWidth {
        name := name[..KeptPrefix] + Ellipsis;
      }
      rows := rows + [ServiceRow(i + 1, name, cost, percentage)];
      assert Rows(top, total)[..i + 1] == Rows(top, total)[..i] + [Row(i + 1, top[i], total)];
    }
    assert Rows(top, total)[..|top|] == Rows(top, total);
  }

  /** Builds `output_lines` step by step, as the handler does. */
  method BuildReport(now: DateTime, start: Date, end: Date, costs: seq<ServiceCost>)
    returns (lines: seq<Line>)
    requires 1 <= now.month <= 12
    ensures lines == ReportLines(now, start, end, costs)
  {
    var top := TopFive(costs);
    var total := Sum(costs);
    lines := [];
    lines := lines + [Rule('=')];
    lines := lines + [Title(MonthNames[now.month - 1], now.year)];
    lines := lines + [Rule('=')];
    lines := lines + [Period(start, end)];
    lines := lines + [TotalCost(total)];
    lines := lines + [Text("")];
    assert lines == Header(now, start, end, total);
    if top != [] {
      lines := lines + [Text(TopHeading)];
      lines := lines + [Rule('-')];
      var rows := ListServices(top, total);
      lines := lines + rows;
      assert lines == Header(now, start, end, total) + [Text(TopHeading)] + [Rule('-')] + Rows(TopFive(costs), total);
      lines := lines + [Rule('-')];
      ghost var middle := lines;
      if |costs| > TopCount {
        var otherCost := Sum(costs[TopCount..]);
        var otherCount := |costs| - TopCount;
        var otherPercentage := if total > 0.0 then otherCost / total * 100.0 else 0.0;
        lines := lines + [OtherServices(otherCount, otherCost, otherPercentage)];
        lines := lines + [Rule('-')];
      }
      assert lines == middle + OtherSection(costs, total);
      lines := lines + [ServiceCount(|costs|)];
    } else {
      lines := lines + [Text(NoDataMessage)];
    }
    lines := lines + [Rule('=')];
  }

  // ---------------------------------------------------------------------
  // Shape of the report

  /** The fifth line carries the total of every listed and unlisted service. */
  lemma ReportTotalLine(now: DateTime, start: Date, end: Date, costs: seq<ServiceCost>)
    requires 1 <= now.month <= 12
    ensures ReportLines(now, start, end, costs)[4] == TotalCost(Sum(costs))
  {
    var total := Sum(costs);
    var h := Header(now, start, end, total);
    var lines := ReportLines(now, start, end, costs);
    if costs == [] {
      assert lines == h + [Text(NoDataMessage)] + [Rule('=')];
    } else {
      var listed := h + [Text(TopHeading)] + [Rule('-')] + Rows(TopFive(costs), total);
      assert lines == listed + [Rule('-')] + OtherSection(costs, total) + [ServiceCount(|costs|)] + [Rule('=')];
      assert listed[4] == h[4];
    }
  }

  /** The report opens and closes with a line of 60 '=' characters. */
  lemma ReportFramed(now: DateTime, start: Date, end: Date, costs: seq<ServiceCost>)
    requires 1 <= now.month <= 12
    ensures var lines := ReportLines(now, start, end, costs);
      && |lines| >= 8 && lines[0] == Rule('=') && lines[|lines| - 1] == Rule('=')
      && FixedText(lines[0]) == FixedText(lines[|lines| - 1]) == Repeat('=', RuleWidth)
  {
  }

  /** With no service, the report says so and lists nothing. */
  lemma ReportWithoutServices(now: DateTime, start: Date, end: Date)
    requires 1 <= now.month <= 12
    ensures var lines := ReportLines(now, start, end, []);
      && |lines| == 8
      && lines[6] == Text(NoDataMessage)
      && Text(TopHeading) !in lines
      && forall m :: 0 <= m < |lines| ==> !lines[m].ServiceRow? && !lines[m].ServiceCount?
  {
    assert TopHeading[0] == 'T' && NoDataMessage[0] == 'N' && |""| == 0;
  }

  /** With services, a line is a service row exactly when it lies among the
      k = min(5, n) lines that follow the eight lines of header and heading. */
  lemma {:induction false} ReportRowPositions(now: DateTime, start: Date, end: Date, costs: seq<ServiceCost>)
    requires 1 <= now.month <= 12 && costs != []
    ensures var lines := ReportLines(now, start, end, costs);
      forall m :: 0 <= m < |lines| ==> (lines[m].ServiceRow? <==> 8 <= m < 8 + |TopFive(costs)|)
  {
    var total := Sum(costs);
    var head := Header(now, start, end, total) + [Text(TopHeading)] + [Rule('-')];
    var rows := Rows(TopFive(costs), total);
    var other := OtherSection(costs, total);
    var lines := ReportLines(now, start, end, costs);
    assert lines == head + rows + [Rule('-')] + other + [ServiceCount(|costs|)] + [Rule('=')];
    var n := |head| + |rows|;
    assert |lines| == n + |other| + 3;
    forall m | 0 <= m < |lines|
      ensures lines[m].ServiceRow? <==> 8 <= m < 8 + |TopFive(costs)|
    {
      if m < |head| {
        assert lines[m] == head[m];
      } else if m < n {
        assert lines[m] == rows[m - |head|];
      } else if m == n {
        assert lines[m] == Rule('-');
      } else if m < n + 1 + |other| {
        assert lines[m] == other[m - n - 1];
      } else if m == n + 1 + |other| {
        assert lines[m] == ServiceCount(|costs|);
      } else {
        assert lines[m] == Rule('=');
      }
    }
  }

  /** With services, lines 8 to 8+k-1 are exactly the rows of the k = min(5, n)
      most expensive, ranked 1 to k, and no other line is a row. */
  lemma {:induction false} ReportRows(now: DateTime, start: Date, end: Date, costs: seq<ServiceCost>)
    requires 1 <= now.month <= 12 && costs != []
    ensures var lines := ReportLines(now, start, end, costs);
      && lines[6] == Text(TopHeading)
      && (forall m :: 0 <= m < |lines| ==> (lines[m].ServiceRow? <==> 8 <= m < 8 + |TopFive(costs)|))
      && (forall i :: 0 <= i < |TopFive(costs)| ==>
            lines[8 + i] == ServiceRow(i + 1, DisplayName(costs[i].service), costs[i].cost,
                                       Percentage(costs[i].cost, Sum(costs))))
  {
    ReportRowPositions(now, start, end, costs);
    var total := Sum(costs);
    var head := Header(now, start, end, total) + [Text(TopHeading)] + [Rule('-')];
    var rows := Rows(TopFive(costs), total);
    var lines := ReportLines(now, start, end, costs);
    assert lines == head + rows + [Rule('-')] + OtherSection(costs, total) + [ServiceCount(|costs|)] + [Rule('=')];
    assert lines[6] == head[6];
    forall i | 0 <= i < |TopFive(costs)|
      ensures lines[8 + i] == ServiceRow(i + 1, DisplayName(costs[i].service), costs[i].cost,
                                         Percentage(costs[i].cost, total))
    {
      assert lines[8 + i] == rows[i];
    }
  }

  /** The "Other Services" line appears exactly when there are more than five
      services; it counts the n - 5 others, and its cost is what the listed
      services leave of the total. The line before the closing rule is the
      service count. */
  lemma {:induction false} ReportOthers(now: DateTime, start: Date, end: Date, costs: seq<ServiceCost>)
    requires 1 <= now.month <= 12
    ensures var lines := ReportLines(now, start, end, costs);
      && ((exists m :: 0 <= m < |lines| && lines[m].OtherServices?) <==> |costs| > TopCount)
      && (|costs| > TopCount ==>
            var other := lines[8 + TopCount + 1];
            && other.OtherServices?
            && other.count == |costs| - TopCount
            && Sum(TopFive(costs)) + other.cost == Sum(costs))
      && (costs != [] ==> lines[|lines| - 2] == ServiceCount(|costs|))
  {
    var total := Sum(costs);
    var lines := ReportLines(now, start, end, costs);
    if costs == [] {
      assert forall m :: 0 <= m < |lines| ==> !lines[m].OtherServices?;
    } else {
      var rows := Rows(TopFive(costs), total);
      var other := OtherSection(costs, total);
      var head := Header(now, start, end, total) + [Text(TopHeading)] + [Rule('-')] + rows + [Rule('-')];
      assert lines == head + other + [ServiceCount(|costs|)] + [Rule('=')];
      forall m | 0 <= m < |lines|
        ensures lines[m].OtherServices? <==> |costs| > TopCount && m == |head|
      {
        if m < |head| {
          assert lines[m] == head[m];
          if m >= 8 && m < 8 + |rows| {
            assert head[m] == rows[m - 8];
          }
        } else if m < |head| + |other| {
          assert lines[m] == other[m - |head|];
        }
      }
      if |costs| > TopCount {
        assert lines[|head|] == other[0];
        SplitSum(costs);
      }
    }
  }

  /** When all costs are positive, every listed share lies in (0, 100]. */
  lemma RowShares(now: DateTime, start: Date, end: Date, costs: seq<ServiceCost>)
    requires 1 <= now.month <= 12 && AllPositive(costs)
    ensures var lines := ReportLines(now, start, end, costs);
      forall m :: 0 <= m < |lines| && lines[m].ServiceRow? ==>
        0.0 < lines[m].percentage <= 100.0
  {
    var lines := ReportLines(now, start, end, costs);
    if costs != [] {
      ReportRows(now, start, end, costs);
      SumBounds(costs);
      forall m | 0 <= m < |lines| && lines[m].ServiceRow?
        ensures 0.0 < lines[m].percentage <= 100.0
      {
        PercentageBounds(costs[m - 8].cost, Sum(costs));
      }
    } else {
      ReportWithoutServices(now, start, end);
    }
  }
}
