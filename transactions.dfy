/** The router of api/transactions.js: it strips `/api/transactions` and
    one trailing `/` from the URL, splits the rest on `/`, and looks up a
    fixed table of transactions by code, date, date range or customer. */
module Transactions {
  import opened Wrappers
  import opened Strings
  import opened Sequences
  import opened Http

  datatype Transaction = Transaction(unqcode: string, customer: string, date: string, amount: int)

  /** The handler's own table. */
  const SampleTransactions: seq<Transaction> := [
    Transaction("TX1001", "Alice", "2025-08-24", 1000),
    Transaction("TX1002", "Bob", "2025-08-24", 500),
    Transaction("TX1003", "Alice", "2025-08-23", 200)
  ]

  datatype TxRequest = TxRequest(httpMethod: string, url: string)

  /** The five 404 messages. */
  datatype Missing = TransactionNotFound | NoneForDate | NoneInRange | NoneForCustomer | EndpointNotFound

  /** A response body: none (`res.end()`), a list of transactions, one
      transaction, a 404 message, or the error of an uncaught exception. */
  datatype Payload = NoContent | List(txs: seq<Transaction>) | Single(tx: Transaction) | NotFound(missing: Missing) | Crashed

  const Prefix := "/api/transactions"

  /** `url.replace(/^\/api\/transactions\/?/, "")`. */
  function DropRoutePrefix(url: string): string {
    if |url| >= |Prefix| && url[..|Prefix|] == Prefix then DropLeadingSlash(url[|Prefix|..]) else url
  }

  function DropLeadingSlash(s: string): string {
    if s != [] && s[0] == '/' then s[1..] else s
  }

  /** `.replace(/\/$/, "")`. */
  function DropTrailingSlash(s: string): string {
    if s != [] && s[|s| - 1] == '/' then s[..|s| - 1] else s
  }

  /** The path the handler splits: under the prefix, what follows it; any
      other URL loses at most one trailing `/`. */
  function StripRoute(url: string): (path: string)
    ensures |url| >= |Prefix| && url[..|Prefix|] == Prefix ==> |path| <= |url| - |Prefix|
    ensures !(|url| >= |Prefix| && url[..|Prefix|] == Prefix) ==> path == url || url == path + "/"
  {
    DropTrailingSlash(DropRoutePrefix(url))
  }

  /** The path segments `urlPath.split("/")`: at least one, none holding a
      `/`, and joined again they give the path back. */
  function Parts(url: string): (parts: seq<string>)
    ensures |parts| >= 1
    ensures forall i :: 0 <= i < |parts| ==> '/' !in parts[i]
    ensures Join(parts, '/') == StripRoute(url)
  {
    JoinSplit(StripRoute(url), '/');
    Split(StripRoute(url), '/')
  }

  /** `parts[i]`, `undefined` past the end. */
  function Param(parts: seq<string>, i: nat): Option<string> {
    if i < |parts| then Some(parts[i]) else None
  }

  function HasCode(code: Option<string>): Transaction -> bool {
    (t: Transaction) => Some(t.unqcode) == code
  }

  function OnDate(date: Option<string>): Transaction -> bool {
    (t: Transaction) => Some(t.date) == date
  }

  function ForCustomer(name: string): Transaction -> bool {
    (t: Transaction) => LowerAscii(t.customer) == name
  }

  /** A date string `new Date` reads as a calendar day here: `YYYY-MM-DD`
      with a month from 1 to 12 and a day from 1 to 31. */
  predicate IsDate(s: string) {
    && |s| == 10 && AllDigits(s[..4]) && s[4] == '-' && AllDigits(s[5..7]) && s[7] == '-' && AllDigits(s[8..])
    && 1 <= Value(s[5..7]) <= 12 && 1 <= Value(s[8..]) <= 31
  }

  /** The day a date string denotes, as a number that grows with time. */
  function DayNumber(s: string): nat
    requires IsDate(s)
  {
    Value(s[..4]) * 10000 + Value(s[5..7]) * 100 + Value(s[8..])
  }

  /** The value of `new Date(s)`: a day, or an invalid date (`NaN`), which
      compares false with everything. */
  datatype Instant = Day(n: nat) | InvalidDate

  function ParseDate(s: Option<string>): (d: Instant)
    ensures d.Day? <==> s.Some? && IsDate(s.value)
  {
    if s.Some? && IsDate(s.value) then Day(DayNumber(s.value)) else InvalidDate
  }

  /** `tDate >= start && tDate <= end`. Nothing is in range when a bound
      or the transaction's date is invalid, or when the range is reversed. */
  function InRange(start: Instant, end: Instant): (within: Transaction -> bool)
    ensures forall t :: within(t) ==> start.Day? && end.Day? && start.n <= end.n && IsDate(t.date)
  {
    (t: Transaction) =>
      var d := ParseDate(Some(t.date));
      d.Day? && start.Day? && end.Day? && start.n <= d.n <= end.n
  }

  /** The `switch` on the first segment. Every answer is 200 with a body,
      404 with a message, or 500 for the uncaught exception of
      `customer` without a name. */
  function Route(parts: seq<string>, txs: seq<Transaction>): (res: Response<Payload>)
    requires |parts| >= 1
    ensures res.status == 200 <==> res.body.List? || res.body.Single?
    ensures res.status == 404 <==> res.body.NotFound?
    ensures res.status == 500 <==> res.body.Crashed?
    ensures res.status in {200, 404, 500}
    ensures res.status == 500 <==> parts[0] == "customer" && |parts| == 1
  {
    var kind, p1, p2 := parts[0], Param(parts, 1), Param(parts, 2);
    if kind == "" then Response(200, List(txs))
    else if kind == "code" then
      match Find(txs, HasCode(p1))
      case Some(t) => Response(200, Single(t))
      case None => Response(404, NotFound(TransactionNotFound))
    else if kind == "date" then
      var byDate := Filter(txs, OnDate(p1));
      if |byDate| > 0 then Response(200, List(byDate)) else Response(404, NotFound(NoneForDate))
    else if kind == "range" then
      var inRange := Filter(txs, InRange(ParseDate(p1), ParseDate(p2)));
      if |inRange| > 0 then Response(200, List(inRange)) else Response(404, NotFound(NoneInRange))
    else if kind == "customer" then
      if p1.None? then Response(500, Crashed)
      else
        var byCustomer := Filter(txs, ForCustomer(LowerAscii(p1.value)));
        if |byCustomer| > 0 then Response(200, List(byCustomer)) else Response(404, NotFound(NoneForCustomer))
    else Response(404, NotFound(EndpointNotFound))
  }

  /** `handler`: OPTIONS answers 200 with no body; every other method is
      routed on the URL's segments. */
  function Handle(req: TxRequest, txs: seq<Transaction>): (res: Response<Payload>)
    ensures req.httpMethod == "OPTIONS" ==> res == Response(200, NoContent)
    ensures res.status in {200, 404, 500}
  {
    if req.httpMethod == "OPTIONS" then Response(200, NoContent)
    else Route(Parts(req.url), txs)
  }

  lemma StripPrefixed(r: string)
    ensures DropRoutePrefix(Prefix + r) == DropLeadingSlash(r)
  {
    assert (Prefix + r)[..|Prefix|] == Prefix && (Prefix + r)[|Prefix|..] == r;
  }

  lemma DropSlashes(lead: string, p: string, trail: string)
    requires lead in {"", "/"} && trail in {"", "/"}
    requires p == [] || (p[0] != '/' && p[|p| - 1] != '/')
    ensures DropTrailingSlash(DropLeadingSlash(lead + p + trail)) == p
  {
    var r := lead + p + trail;
    if lead == "" && p == [] {
      assert r == trail;
    } else {
      assert DropLeadingSlash(r) == p + trail by {
        if lead == "/" {
          assert r == "/" + (p + trail);
        } else {
          assert r == p + trail && r[0] == p[0];
        }
      }
      if trail == "/" {
        assert (p + trail)[..|p|] == p;
      } else {
        assert p + trail == p;
      }
    }
  }

  /** The prefix, a `/` after it and one trailing `/` are all removed. */
  lemma StripRouteRemovesPrefix(lead: string, p: string, trail: string)
    requires lead in {"", "/"} && trail in {"", "/"}
    requires p == [] || (p[0] != '/' && p[|p| - 1] != '/')
    ensures StripRoute(Prefix + lead + p + trail) == p
  {
    assert Prefix + lead + p + trail == Prefix + (lead + p + trail);
    StripPrefixed(lead + p + trail);
    DropSlashes(lead, p, trail);
  }

  /** Only one trailing `/` is removed. */
  lemma StripRouteOneSlash(p: string)
    requires p == [] || p[0] != '/'
    ensures StripRoute(Prefix + "/" + p + "//") == p + "/"
  {
    assert Prefix + "/" + p + "//" == Prefix + ("/" + p + "//");
    StripPrefixed("/" + p + "//");
    assert ("/" + p + "//")[1..] == p + "//" && (p + "//")[..|p| + 1] == p + "/";
  }

  /** A URL built from segments that hold no `/`, the first and the last
      non-empty, yields exactly those segments, with or without a trailing
      `/`. */
  lemma ParseRoute(segs: seq<string>)
    requires |segs| >= 1 && segs[0] != "" && segs[|segs| - 1] != ""
    requires forall i :: 0 <= i < |segs| ==> '/' !in segs[i]
    ensures Parts(Prefix + "/" + Join(segs, '/')) == segs
    ensures Parts(Prefix + "/" + Join(segs, '/') + "/") == segs
  {
    var p := Join(segs, '/');
    JoinLast(segs, '/');
    if |segs| > 1 {
      assert p == segs[0] + ['/'] + Join(segs[1..], '/');
    }
    assert p[0] == segs[0][0];
    assert segs[0][0] in segs[0];
    StripRouteRemovesPrefix("/", p, "");
    StripRouteRemovesPrefix("/", p, "/");
    assert Prefix + "/" + p == Prefix + "/" + p + "";
    SplitJoin(segs, '/');
  }

  /** Requests other than OPTIONS are routed on the URL's segments. */
  lemma HandleRoutes(httpMethod: string, segs: seq<string>, txs: seq<Transaction>)
    requires httpMethod != "OPTIONS"
    requires |segs| >= 1 && segs[0] != "" && segs[|segs| - 1] != ""
    requires forall i :: 0 <= i < |segs| ==> '/' !in segs[i]
    ensures Handle(TxRequest(httpMethod, Prefix + "/" + Join(segs, '/')), txs) == Route(segs, txs)
  {
    ParseRoute(segs);
  }

  /** `/api/transactions` and `/api/transactions/` list the whole table. */
  lemma EmptyPathListsAll(httpMethod: string, txs: seq<Transaction>)
    requires httpMethod != "OPTIONS"
    ensures Handle(TxRequest(httpMethod, Prefix), txs) == Response(200, List(txs))
    ensures Handle(TxRequest(httpMethod, Prefix + "/"), txs) == Response(200, List(txs))
  {
    StripRouteRemovesPrefix("", "", "");
    StripRouteRemovesPrefix("/", "", "");
    assert Prefix + "" + "" + "" == Prefix && Prefix + "/" + "" + "" == Prefix + "/";
  }

  /** `code/X`: the first transaction with code `X`, or 404 when there is
      none; `code` without a code finds nothing. */
  lemma CodeLookup(parts: seq<string>, txs: seq<Transaction>)
    requires |parts| >= 1 && parts[0] == "code"
    ensures |parts| == 1 ==> Route(parts, txs) == Response(404, NotFound(TransactionNotFound))
    ensures |parts| >= 2 ==>
      var res := Route(parts, txs);
      && res.status in {200, 404}
      && (res.status == 404 <==> forall i :: 0 <= i < |txs| ==> txs[i].unqcode != parts[1])
      && (res.status == 200 ==>
            exists i :: 0 <= i < |txs| && res.body == Single(txs[i]) && txs[i].unqcode == parts[1]
                        && forall j :: 0 <= j < i ==> txs[j].unqcode != parts[1])
  {
  }

  /** A filter's result: nothing added, nothing reordered, and each kept
      transaction kept as often as it occurs. */
  ghost predicate Selects(r: seq<Transaction>, txs: seq<Transaction>, p: Transaction -> bool) {
    && IsSubsequence(r, txs)
    && (forall t :: t in r <==> t in txs && p(t))
    && (forall t :: p(t) ==> multiset(r)[t] == multiset(txs)[t])
  }

  lemma FilterSelects(txs: seq<Transaction>, p: Transaction -> bool)
    ensures Selects(Filter(txs, p), txs, p)
    ensures |Filter(txs, p)| == 0 <==> forall t :: t in txs ==> !p(t)
  {
    FilterIsSubsequence(txs, p);
    FilterMembers(txs, p);
    FilterCounts(txs, p);
  }

  /** `date/D`: exactly the transactions dated `D`, in table order, or 404
      when there are none. */
  lemma DateLookup(parts: seq<string>, txs: seq<Transaction>)
    requires |parts| >= 2 && parts[0] == "date"
    ensures var res := Route(parts, txs);
      && res.status in {200, 404}
      && (res.status == 404 <==> forall t :: t in txs ==> t.date != parts[1])
      && (res.status == 200 ==> res.body.List? && Selects(res.body.txs, txs, OnDate(Some(parts[1]))))
  {
    FilterSelects(txs, OnDate(Some(parts[1])));
  }

  /** `date` without a day matches nothing. */
  lemma DateWithoutDay(txs: seq<Transaction>)
    ensures Route(["date"], txs) == Response(404, NotFound(NoneForDate))
  {
    FilterSelects(txs, OnDate(None));
  }

  /** `customer/N`: exactly the transactions whose customer equals `N` up
      to ASCII case, in table order, or 404 when there are none; without a
      name the handler throws. */
  lemma CustomerLookup(parts: seq<string>, txs: seq<Transaction>)
    requires |parts| >= 1 && parts[0] == "customer"
    ensures |parts| == 1 ==> Route(parts, txs) == Response(500, Crashed)
    ensures |parts| >= 2 ==>
      var res := Route(parts, txs);
      var wanted := ForCustomer(LowerAscii(parts[1]));
      && res.status in {200, 404}
      && (res.status == 404 <==> forall t :: t in txs ==> LowerAscii(t.customer) != LowerAscii(parts[1]))
      && (res.status == 200 ==> res.body.List? && Selects(res.body.txs, txs, wanted))
  {
    if |parts| >= 2 {
      FilterSelects(txs, ForCustomer(LowerAscii(parts[1])));
    }
  }

  /** Two characters that are equal or the upper-case and lower-case forms
      of one ASCII letter. */
  predicate SameLetter(c: char, d: char) {
    || c == d
    || ('A' <= c <= 'Z' && d as int == c as int + 32)
    || ('A' <= d <= 'Z' && c as int == d as int + 32)
  }

  /** Names that differ only in ASCII case find the same transactions. */
  lemma CustomerIgnoresCase(a: string, b: string, txs: seq<Transaction>)
    requires |a| == |b| && forall i :: 0 <= i < |a| ==> SameLetter(a[i], b[i])
    ensures Route(["customer", a], txs) == Route(["customer", b], txs)
  {
    var la, lb := LowerAscii(a), LowerAscii(b);
    assert forall i :: 0 <= i < |la| ==> la[i] == lb[i];
    assert la == lb;
  }

  /** On dates, the string order is the order in time. */
  lemma DateOrderIsLexicographic(a: string, b: string)
    requires IsDate(a) && IsDate(b)
    ensures Le(a, b) <==> DayNumber(a) <= DayNumber(b)
  {
    assert a == a[..4] + ['-'] + a[5..] && b == b[..4] + ['-'] + b[5..];
    var ma, mb := a[5..], b[5..];
    assert ma == ma[..2] + ['-'] + ma[3..] && mb == mb[..2] + ['-'] + mb[3..];
    assert ma[..2] == a[5..7] && ma[3..] == a[8..] && mb[..2] == b[5..7] && mb[3..] == b[8..];
    LtField(a[..4], ma, b[..4], mb, '-');
    LtField(ma[..2], ma[3..], mb[..2], mb[3..], '-');
    LtDigits(a[8..], b[8..]);
    if Value(a[8..]) == Value(b[8..]) {
      DigitsInjective(a[8..], b[8..]);
    }
  }

  /** `range/S/E` with valid bounds: exactly the transactions whose date
      lies between `S` and `E`, both ends included, in table order, or 404
      when there are none. */
  lemma RangeLookup(parts: seq<string>, txs: seq<Transaction>)
    requires |parts| >= 3 && parts[0] == "range" && IsDate(parts[1]) && IsDate(parts[2])
    ensures var res := Route(parts, txs);
      var within := (t: Transaction) => IsDate(t.date) && Le(parts[1], t.date) && Le(t.date, parts[2]);
      && res.status in {200, 404}
      && (res.status == 404 <==> forall t :: t in txs ==> !within(t))
      && (res.status == 200 ==> res.body.List? && Selects(res.body.txs, txs, within))
  {
    var p := InRange(ParseDate(Some(parts[1])), ParseDate(Some(parts[2])));
    var within := (t: Transaction) => IsDate(t.date) && Le(parts[1], t.date) && Le(t.date, parts[2]);
    forall t
      ensures p(t) == within(t)
    {
      if IsDate(t.date) {
        DateOrderIsLexicographic(parts[1], t.date);
        DateOrderIsLexicographic(t.date, parts[2]);
      }
    }
    FilterSelects(txs, p);
    assert Selects(Filter(txs, p), txs, within);
  }

  /** A range with a missing or invalid bound matches nothing. */
  lemma RangeInvalidBound(parts: seq<string>, txs: seq<Transaction>)
    requires |parts| >= 1 && parts[0] == "range"
    requires ParseDate(Param(parts, 1)).InvalidDate? || ParseDate(Param(parts, 2)).InvalidDate?
    ensures Route(parts, txs) == Response(404, NotFound(NoneInRange))
  {
    FilterSelects(txs, InRange(ParseDate(Param(parts, 1)), ParseDate(Param(parts, 2))));
  }

  /** Any other first segment is an unknown endpoint. */
  lemma UnknownEndpoint(parts: seq<string>, txs: seq<Transaction>)
    requires |parts| >= 1 && parts[0] !in {"", "code", "date", "range", "customer"}
    ensures Route(parts, txs) == Response(404, NotFound(EndpointNotFound))
  {
  }

  /** Lookups in the handler's own table. */
  lemma SampleCodeLookup()
    ensures Route(["code", "TX1002"], SampleTransactions) == Response(200, Single(SampleTransactions[1]))
    ensures Route(["code", "TX9999"], SampleTransactions) == Response(404, NotFound(TransactionNotFound))
  {
    var s := SampleTransactions;
    assert s[1..][0] == s[1];
    assert "TX1001" != "TX1002" by { assert "TX1001"[5] != "TX1002"[5]; }
    assert forall i :: 0 <= i < |s| ==> s[i].unqcode != "TX9999" by {
      assert "TX1001"[2] != "TX9999"[2] && "TX1002"[2] != "TX9999"[2] && "TX1003"[2] != "TX9999"[2];
    }
  }

  lemma SampleDateLookup()
    ensures Route(["date", "2025-08-24"], SampleTransactions) ==
              Response(200, List([SampleTransactions[0], SampleTransactions[1]]))
  {
    var s := SampleTransactions;
    var p := OnDate(Some("2025-08-24"));
    assert "2025-08-23" != "2025-08-24" by { assert "2025-08-23"[9] != "2025-08-24"[9]; }
    assert s[1..] == [s[1], s[2]] && s[1..][1..] == [s[2]] && s[1..][1..][1..] == [];
    assert Filter(s[1..][1..], p) == [];
    assert Filter(s[1..], p) == [s[1]];
    assert Filter(s, p) == [s[0], s[1]];
  }

  lemma SampleCustomerLookup()
    ensures Route(["customer", "alice"], SampleTransactions) ==
              Response(200, List([SampleTransactions[0], SampleTransactions[2]]))
  {
    var s := SampleTransactions;
    var p := ForCustomer(LowerAscii("alice"));
    assert LowerAscii("alice") == "alice";
    assert LowerAscii("Alice") == "alice";
    assert LowerAscii("Bob") != "alice" by { assert |LowerAscii("Bob")| == 3; }
    assert s[1..] == [s[1], s[2]] && s[1..][1..] == [s[2]] && s[1..][1..][1..] == [];
    assert Filter(s[1..][1..], p) == [s[2]];
    assert Filter(s[1..], p) == [s[2]];
    assert Filter(s, p) == [s[0], s[2]];
  }
}
