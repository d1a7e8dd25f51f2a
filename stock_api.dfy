/** What api/stockhistory.js and api/stockview.js share: the three query
    parameters, the request, and the shape of the JSON bodies they send. */
module StockApi {
  import opened Wrappers
  import opened Http
  import opened Aggregation

  /** `req.query`: `period`, `startPeriod` and `endPeriod`, each possibly
      absent. */
  datatype Query = Query(period: Option<string>, startPeriod: Option<string>, endPeriod: Option<string>)

  datatype Request = Request(httpMethod: string, query: Query)

  /** The error bodies: 405 "Method not allowed", 400 "Please provide
      either ...", 500 "Internal server error". */
  datatype Failure = MethodNotAllowed | MissingPeriod | InternalError

  /** A response body: none (`res.end()`), an error, or
      `{ groups, grandTotals }` with grand totals of number type `N`. */
  datatype Body<N> = NoContent | Error(failure: Failure) | Report(groups: seq<GroupDoc>, grandTotals: Totals<N>)

  /** The validation both handlers apply: `period`, or both `startPeriod`
      and `endPeriod`. */
  predicate HasFilter(q: Query) {
    Truthy(q.period) || (Truthy(q.startPeriod) && Truthy(q.endPeriod))
  }
}
