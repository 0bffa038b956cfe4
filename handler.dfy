/**
  The Lambda entry point: it works out the reporting period, reads the
  Cost Explorer reply, keeps, sorts, splits and sums the service costs and
  assembles the report. Anything that raises on the way becomes a
  status-500 response.
 */
module Handler {
  import opened Wrappers
  import opened Calendar
  import opened Costs
  import opened Report

  const StatusOk := 200
  const StatusError := 500

  /** The Cost Explorer reply: the `Groups` of each `ResultsByTime` entry. */
  datatype CostReply = CostReply(resultsByTime: seq<seq<Group>>)

  /** What raised inside the handler. */
  datatype Fault =
      /** `replace(year=now.year + 1)` in December of the last representable year */
    | YearOutOfRange
      /** the Cost Explorer call itself raised, with this message */
    | ServiceError(message: string)
      /** a group could not be read */
    | MalformedGroup(fault: GroupFault)

  datatype Body = ReportBody(lines: seq<Line>) | ErrorBody(cause: Fault)

  datatype Response = Response(statusCode: int, body: Body)

  /** Only the first (and only requested) period's groups are read; an
      empty list of periods yields no groups rather than an error. */
  function ReplyGroups(reply: CostReply): (groups: seq<Group>)
    ensures reply.resultsByTime == [] ==> groups == []
    ensures reply.resultsByTime != [] ==> groups == reply.resultsByTime[0]
  {
    if reply.resultsByTime == [] then [] else reply.resultsByTime[0]
  }

  /** The handler. `now` stands for `datetime.now()` and `reply` for what
      `get_cost_and_usage` returned or raised. */
  method LambdaHandler(now: DateTime, reply: Result<CostReply, string>) returns (response: Response)
    requires Valid(now)
    ensures response.statusCode == StatusOk <==> response.body.ReportBody?
    ensures response.statusCode == StatusError <==> response.body.ErrorBody?
    ensures NextMonthStart(now).None? ==> response == Response(StatusError, ErrorBody(YearOutOfRange))
    ensures NextMonthStart(now).Some? && reply.Failure? ==>
      response == Response(StatusError, ErrorBody(ServiceError(reply.error)))
    ensures NextMonthStart(now).Some? && reply.Success? && AllWellFormed(ReplyGroups(reply.value)) ==>
      var groups := ReplyGroups(reply.value);
      response == Response(StatusOk, ReportBody(
        ReportLines(now, DateOf(StartOfMonth(now)), DateOf(now), SortDesc(Kept(groups)))))
    ensures NextMonthStart(now).Some? && reply.Success? && !AllWellFormed(ReplyGroups(reply.value)) ==>
      var groups := ReplyGroups(reply.value);
      && response.statusCode == StatusError
      && response.body.cause.MalformedGroup?
      && exists i :: 0 <= i < |groups| && AllWellFormed(groups[..i])
                     && FaultOf(groups[i]) == Some(response.body.cause.fault)
  {
    var startOfMonth := StartOfMonth(now);
    var nextMonth := NextMonthStart(now);
    if nextMonth.None? {
      return Response(StatusError, ErrorBody(YearOutOfRange));
    }
    var endDate := EarlierOf(now, DayBefore(nextMonth.value));
    PeriodEndIsNow(now);
    if reply.Failure? {
      return Response(StatusError, ErrorBody(ServiceError(reply.error)));
    }
    var groups := ReplyGroups(reply.value);
    var extracted := ExtractServiceCosts(groups);
    if extracted.Failure? {
      return Response(StatusError, ErrorBody(MalformedGroup(extracted.error)));
    }
    var serviceCosts := SortByCost(extracted.value);
    var lines := BuildReport(now, DateOf(startOfMonth), DateOf(endDate), serviceCosts);
    return Response(StatusOk, ReportBody(lines));
  }

  // ---------------------------------------------------------------------
  // Properties of the whole report

  /** Each entry of the sorted list comes from a group with that positive cost. */
  lemma SortedEntryFromGroup(groups: seq<Group>, k: int)
    requires AllWellFormed(groups) && 0 <= k < |SortDesc(Kept(groups))|
    ensures var entry := SortDesc(Kept(groups))[k];
      && entry.cost > 0.0
      && exists i :: 0 <= i < |groups| && groups[i].amount == Some(entry.cost)
                     && entry.service == groups[i].keys[0]
  {
    var entry := SortDesc(Kept(groups))[k];
    SortDescPermutes(Kept(groups));
    assert entry in multiset(Kept(groups));
    KeptMembers(groups, entry);
    var i :| 0 <= i < |groups| && groups[i].amount.value > 0.0 && entry == Entry(groups[i]);
    assert groups[i].amount == Some(entry.cost);
  }

  /** Every service row shows a positive cost read from some group, under
      that group's (possibly shortened) service name: a group whose cost is
      zero or negative never shows. */
  lemma RowsComeFromPositiveGroups(now: DateTime, start: Date, end: Date, groups: seq<Group>)
    requires 1 <= now.month <= 12 && AllWellFormed(groups)
    ensures var lines := ReportLines(now, start, end, SortDesc(Kept(groups)));
      forall m :: 0 <= m < |lines| && lines[m].ServiceRow? ==>
        && lines[m].cost > 0.0
        && exists i :: 0 <= i < |groups| && groups[i].amount == Some(lines[m].cost)
                       && lines[m].name == DisplayName(groups[i].keys[0])
  {
    var sorted := SortDesc(Kept(groups));
    var lines := ReportLines(now, start, end, sorted);
    if sorted == [] {
      ReportWithoutServices(now, start, end);
    } else {
      ReportRows(now, start, end, sorted);
      forall m | 0 <= m < |lines| && lines[m].ServiceRow?
        ensures lines[m].cost > 0.0
        ensures exists i :: 0 <= i < |groups| && groups[i].amount == Some(lines[m].cost)
                            && lines[m].name == DisplayName(groups[i].keys[0])
      {
        SortedEntryFromGroup(groups, m - 8);
      }
    }
  }

  /** The total is the sum over every kept service, not only the listed
      five, and the report counts every kept service. */
  lemma ReportTotals(now: DateTime, start: Date, end: Date, groups: seq<Group>)
    requires 1 <= now.month <= 12 && AllWellFormed(groups)
    ensures var lines := ReportLines(now, start, end, SortDesc(Kept(groups)));
      && lines[4] == TotalCost(Sum(Kept(groups)))
      && (Kept(groups) != [] ==> lines[|lines| - 2] == ServiceCount(|Kept(groups)|))
  {
    var sorted := SortDesc(Kept(groups));
    SortDescSum(Kept(groups));
    SortDescPermutes(Kept(groups));
    assert |sorted| == |Kept(groups)| by {
      assert |multiset(sorted)| == |multiset(Kept(groups))|;
    }
    ReportTotalLine(now, start, end, sorted);
    ReportOthers(now, start, end, sorted);
  }

  /** Every share shown for a listed service lies in (0, 100]. */
  lemma ReportSharesInRange(now: DateTime, start: Date, end: Date, groups: seq<Group>)
    requires 1 <= now.month <= 12 && AllWellFormed(groups)
    ensures var lines := ReportLines(now, start, end, SortDesc(Kept(groups)));
      forall m :: 0 <= m < |lines| && lines[m].ServiceRow? ==> 0.0 < lines[m].percentage <= 100.0
  {
    AllPositiveSorted(Kept(groups));
    RowShares(now, start, end, SortDesc(Kept(groups)));
  }
}
