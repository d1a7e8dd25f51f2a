/** The handler of api/stockview.js. It answers CORS preflight requests,
    uses the `normalizeYYYYMM` that throws on a missing month, and sums the
    grand totals without the `|| 0` guard. The documents of the
    `stockhistory` collection are an input; `None` stands for a failed
    connection or aggregation. */
module StockView {
  import opened Wrappers
  import opened Strings
  import opened Http
  import opened Periods
  import opened Aggregation
  import opened GrandTotals
  import opened StockApi
  import StockHistory

  /** The `$match` document, built after validation: `period` if given,
      else the inclusive range; a normalisation that throws is the
      failure. */
  function ViewMatch(q: Query): (r: Result<Match, Exception>)
    requires HasFilter(q)
    ensures r.Failure? <==>
              if Truthy(q.period) then '-' !in q.period.value
              else '-' !in q.startPeriod.value || '-' !in q.endPeriod.value
    ensures r.Success? ==> (r.value.Exact? <==> Truthy(q.period)) && !r.value.MatchAll?
  {
    if Truthy(q.period) then
      var p := NormalizeView(q.period);
      if p.Failure? then Failure(p.error) else Success(Exact(p.value.value))
    else
      var lo := NormalizeView(q.startPeriod);
      if lo.Failure? then Failure(lo.error)
      else
        var hi := NormalizeView(q.endPeriod);
        if hi.Failure? then Failure(hi.error)
        else Success(Between(lo.value.value, hi.value.value))
  }

  /** `handler`: 200 with no body for OPTIONS, 405 for another method
      other than GET, 400 without a period or a full range, 500 when a
      period has no month or the database fails, and otherwise 200 with the
      pipeline's groups and grand totals that add up every matched
      document. */
  method Handle(req: Request, db: Option<seq<Record>>) returns (res: Response<Body<JsNum>>)
    ensures req.httpMethod == "OPTIONS" ==> res == Response(200, NoContent)
    ensures req.httpMethod != "OPTIONS" && req.httpMethod != "GET" ==> res == Response(405, Error(MethodNotAllowed))
    ensures req.httpMethod == "GET" && !HasFilter(req.query) ==> res == Response(400, Error(MissingPeriod))
    ensures req.httpMethod == "GET" && HasFilter(req.query) && (ViewMatch(req.query).Failure? || db.None?) ==>
              res == Response(500, Error(InternalError))
    ensures req.httpMethod == "GET" && HasFilter(req.query) && ViewMatch(req.query).Success? && db.Some? ==>
              var m := ViewMatch(req.query).value;
              && res.status == 200 && res.body.Report?
              && res.body.groups == Aggregate(m, db.value)
              && forall f :: res.body.grandTotals.Get(f) == Num(Total(MatchedRows(m, db.value), f))
  {
    if req.httpMethod == "OPTIONS" {
      return Response(200, NoContent);
    }
    if req.httpMethod != "GET" {
      return Response(405, Error(MethodNotAllowed));
    }
    var q := req.query;
    if !Truthy(q.period) && !(Truthy(q.startPeriod) && Truthy(q.endPeriod)) {
      return Response(400, Error(MissingPeriod));
    }
    var filter := MatchAll;
    if Truthy(q.period) {
      var p := NormalizeView(q.period);
      if p.Failure? {
        return Response(500, Error(InternalError));
      }
      filter := Exact(p.value.value);
    } else {
      var lo := NormalizeView(q.startPeriod);
      if lo.Failure? {
        return Response(500, Error(InternalError));
      }
      var hi := NormalizeView(q.endPeriod);
      if hi.Failure? {
        return Response(500, Error(InternalError));
      }
      filter := Between(lo.value.value, hi.value.value);
    }
    if db.None? {
      return Response(500, Error(InternalError));
    }
    var data := Aggregate(filter, db.value);
    var grandTotals := GrandTotalsUnguarded(data);
    forall f
      ensures grandTotals.Get(f) == Num(Total(MatchedRows(filter, db.value), f))
    {
      UnguardedConserves(filter, db.value, f);
    }
    res := Response(200, Report(data, grandTotals));
  }

  /** A query value whose month piece, if it is given at all, is
      non-empty. */
  predicate MonthGiven(s: Option<string>) {
    !Truthy(s) || (|Split(s.value, '-')| >= 2 && Split(s.value, '-')[1] != "")
  }

  /** When every period the filter uses has a non-empty month, the
      stock-view filter is the stock-history filter. */
  lemma ViewAgreesWithHistory(q: Query)
    requires HasFilter(q)
    requires MonthGiven(q.period) && (Truthy(q.period) || (MonthGiven(q.startPeriod) && MonthGiven(q.endPeriod)))
    ensures ViewMatch(q) == Success(StockHistory.HistoryMatch(q))
  {
    ViewVersusHistory(q.period);
    ViewVersusHistory(q.startPeriod);
    ViewVersusHistory(q.endPeriod);
  }

  /** A `period` without a month makes the stock-view filter fail, where
      the stock-history filter takes the first month of that year. */
  lemma MissingMonthDiffers(q: Query)
    requires Truthy(q.period) && '-' !in q.period.value
    ensures ViewMatch(q).Failure?
    ensures StockHistory.HistoryMatch(q) == Exact(q.period.value + "-01")
  {
    ViewVersusHistory(q.period);
  }
}
