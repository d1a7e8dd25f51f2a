/** The handler of api/stockhistory.js. The documents of the
    `stockhistory` collection are an input; `None` stands for a failed
    connection or aggregation, which the handler's `catch` reports as 500. */
module StockHistory {
  import opened Wrappers
  import opened Strings
  import opened Http
  import opened Periods
  import opened Aggregation
  import opened GrandTotals
  import opened StockApi

  /** The `$match` document the handler builds: `period` if given, else
      the inclusive range if both bounds are given, else `{}`, which only
      a request that fails validation would use. */
  function HistoryMatch(q: Query): (m: Match)
    ensures m.Exact? <==> Truthy(q.period)
    ensures m.Between? <==> !Truthy(q.period) && Truthy(q.startPeriod) && Truthy(q.endPeriod)
    ensures m.MatchAll? <==> !HasFilter(q)
  {
    if Truthy(q.period) then Exact(NormalizeHistory(q.period).value)
    else if Truthy(q.startPeriod) && Truthy(q.endPeriod) then
      Between(NormalizeHistory(q.startPeriod).value, NormalizeHistory(q.endPeriod).value)
    else MatchAll
  }

  /** `handler`: 405 for a method other than GET, 400 without a period or
      a full range, 500 when the database fails, and otherwise 200 with the
      pipeline's groups and grand totals that add up every matched
      document. */
  method Handle(req: Request, db: Option<seq<Record>>) returns (res: Response<Body<real>>)
    ensures req.httpMethod != "GET" ==> res == Response(405, Error(MethodNotAllowed))
    ensures req.httpMethod == "GET" && !HasFilter(req.query) ==> res == Response(400, Error(MissingPeriod))
    ensures req.httpMethod == "GET" && HasFilter(req.query) && db.None? ==> res == Response(500, Error(InternalError))
    ensures req.httpMethod == "GET" && HasFilter(req.query) && db.Some? ==>
              var m := HistoryMatch(req.query);
              && res.status == 200 && res.body.Report?
              && res.body.groups == Aggregate(m, db.value)
              && forall f :: res.body.grandTotals.Get(f) == Total(MatchedRows(m, db.value), f)
  {
    if req.httpMethod != "GET" {
      return Response(405, Error(MethodNotAllowed));
    }
    var q := req.query;
    if !Truthy(q.period) && !(Truthy(q.startPeriod) && Truthy(q.endPeriod)) {
      return Response(400, Error(MissingPeriod));
    }
    var filter := MatchAll;
    if Truthy(q.period) {
      filter := Exact(NormalizeHistory(q.period).value);
    } else if Truthy(q.startPeriod) && Truthy(q.endPeriod) {
      filter := Between(NormalizeHistory(q.startPeriod).value, NormalizeHistory(q.endPeriod).value);
    }
    if db.None? {
      return Response(500, Error(InternalError));
    }
    var data := Aggregate(filter, db.value);
    var grandTotals := GrandTotalsGuarded(data);
    forall f
      ensures grandTotals.Get(f) == Total(MatchedRows(filter, db.value), f)
    {
      GuardedConserves(filter, db.value, f);
    }
    res := Response(200, Report(data, grandTotals));
  }

  /** When `period` is given, the range bounds make no difference. */
  lemma PeriodWins(period: Option<string>, lo1: Option<string>, hi1: Option<string>, lo2: Option<string>, hi2: Option<string>)
    requires Truthy(period)
    ensures HistoryMatch(Query(period, lo1, hi1)) == HistoryMatch(Query(period, lo2, hi2))
    ensures HistoryMatch(Query(period, lo1, hi1)).Exact?
  {
  }

  /** With a well-formed `period`, exactly the documents of that month
      match. */
  lemma ExactMatchIsThatMonth(q: Query, r: Record)
    requires Truthy(q.period) && IsYearMonth(q.period.value)
    requires r.period.Some? && IsCanonical(r.period.value)
    ensures Matches(HistoryMatch(q), r) <==> MonthIndex(r.period.value) == QueryMonth(q.period.value)
  {
    HistoryCanonical(q.period.value);
    SameMonthIsSamePeriod(NormalizeHistory(q.period).value, r.period.value);
  }

  /** Without `period`, well-formed bounds select the documents whose month
      lies between them, both ends included. */
  lemma RangeIsInclusive(q: Query, r: Record)
    requires !Truthy(q.period)
    requires Truthy(q.startPeriod) && IsYearMonth(q.startPeriod.value)
    requires Truthy(q.endPeriod) && IsYearMonth(q.endPeriod.value)
    requires r.period.Some? && IsCanonical(r.period.value)
    ensures Matches(HistoryMatch(q), r) <==>
              QueryMonth(q.startPeriod.value) <= MonthIndex(r.period.value) <= QueryMonth(q.endPeriod.value)
  {
    var lo, hi := NormalizeHistory(q.startPeriod).value, NormalizeHistory(q.endPeriod).value;
    HistoryCanonical(q.startPeriod.value);
    HistoryCanonical(q.endPeriod.value);
    PeriodOrderIsChronological(lo, r.period.value);
    PeriodOrderIsChronological(r.period.value, hi);
  }
}
