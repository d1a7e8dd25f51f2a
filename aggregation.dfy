/** The aggregation pipeline that api/stockhistory.js and api/stockview.js
    send to the `stockhistory` collection, written out as functions over
    the collection's documents:
      `$match`     on `PERIOD_ISO`                    -> Filter with Matches
      `$addFields` `unitCost`, `soldCost`             -> AddFields
      `$group`     by `GROUP_NAME` with five `$sum`s  -> GroupBy, Group
      `$sort`      by `_id` ascending                 -> GroupBy keeps the groups in KeyLt order
    Both files send the same pipeline. */
module Aggregation {
  import opened Wrappers
  import opened Strings
  import opened Sequences

  /** One document of the `stockhistory` collection. `groupName` is
      `GROUP_NAME` (`None` when missing or null), `period` is `PERIOD_ISO`,
      and the four amounts are `QTY_SOLD`, `QTY_BUY`, `BUY` and `SOLD`. */
  datatype Record = Record(
    groupName: Option<string>,
    partNo: string,
    description: string,
    period: Option<string>,
    qtySold: real,
    qtyBuy: real,
    buy: real,
    sold: real)

  /** The `$match` document: `{}`, `{PERIOD_ISO: p}` or
      `{PERIOD_ISO: {$gte: lo, $lte: hi}}`. */
  datatype Match = MatchAll | Exact(period: string) | Between(lo: string, hi: string)

  /** Whether `$match` lets a document through. A string comparison only
      matches documents whose `PERIOD_ISO` is a string. */
  predicate Matches(m: Match, r: Record) {
    match m
    case MatchAll => true
    case Exact(p) => r.period == Some(p)
    case Between(lo, hi) => r.period.Some? && Le(lo, r.period.value) && Le(r.period.value, hi)
  }

  function Matcher(m: Match): Record -> bool {
    r => Matches(m, r)
  }

  /** A document after `$addFields`. */
  datatype Row = Row(rec: Record, unitCost: real, soldCost: real)

  /** `$addFields`: the unit cost `BUY / QTY_BUY` and the cost of what was
      sold, both 0 when nothing was bought. */
  function AddFields(r: Record): (row: Row)
    ensures row.rec == r
    ensures r.qtyBuy == 0.0 ==> row.unitCost == 0.0 && row.soldCost == 0.0
    ensures r.qtyBuy != 0.0 ==> row.unitCost * r.qtyBuy == r.buy && row.soldCost == r.qtySold * row.unitCost
  {
    if r.qtyBuy == 0.0 then Row(r, 0.0, 0.0)
    else Row(r, r.buy / r.qtyBuy, r.qtySold * (r.buy / r.qtyBuy))
  }

  /** The documents that reach `$group`: each is a matching document with
      its added fields, and every matching document reaches it as often as
      it occurs in the collection. */
  function MatchedRows(m: Match, records: seq<Record>): (rows: seq<Row>)
    ensures |rows| <= |records|
    ensures forall row :: row in rows <==> row.rec in records && Matches(m, row.rec) && row == AddFields(row.rec)
    ensures forall r :: Matches(m, r) ==> multiset(rows)[AddFields(r)] == multiset(records)[r]
  {
    FilterMembers(records, Matcher(m));
    FilterCounts(records, Matcher(m));
    AddFieldsCounts(Filter(records, Matcher(m)));
    Map(Filter(records, Matcher(m)), AddFields)
  }

  /** `$addFields` neither merges nor splits documents. */
  lemma AddFieldsCounts(records: seq<Record>)
    ensures forall r :: multiset(Map(records, AddFields))[AddFields(r)] == multiset(records)[r]
  {
    forall r
      ensures multiset(Map(records, AddFields))[AddFields(r)] == multiset(records)[r]
    {
      AddFieldsCount(records, r);
    }
  }

  lemma {:induction false} AddFieldsCount(records: seq<Record>, r: Record)
    ensures multiset(Map(records, AddFields))[AddFields(r)] == multiset(records)[r]
  {
    if records != [] {
      var x := records[0];
      var rows, rest := Map(records, AddFields), Map(records[1..], AddFields);
      AddFieldsCount(records[1..], r);
      assert rows == [AddFields(x)] + rest;
      assert records == [x] + records[1..];
      assert AddFields(x) == AddFields(r) <==> x == r by {
        assert AddFields(x).rec == x && AddFields(r).rec == r;
      }
    }
  }

  /** The five quantities `$group` sums. */
  datatype Field = QtySold | QtyBuy | Buy | Sold | Profit

  function Measure(row: Row, f: Field): real {
    match f
    case QtySold => row.rec.qtySold
    case QtyBuy => row.rec.qtyBuy
    case Buy => row.rec.buy
    case Sold => row.rec.sold
    case Profit => row.rec.sold - row.soldCost
  }

  /** `$sum` of one quantity over some documents. */
  function Total(rows: seq<Row>, f: Field): real {
    if rows == [] then 0.0 else Total(rows[..|rows| - 1], f) + Measure(rows[|rows| - 1], f)
  }

  /** The five totals, in the order `qtySold`, `qtyBuy`, `totalBuy`,
      `totalSold`, `totalProfit`. */
  datatype Totals<N> = Totals(qtySold: N, qtyBuy: N, totalBuy: N, totalSold: N, totalProfit: N) {
    function Get(f: Field): N {
      match f
      case QtySold => qtySold
      case QtyBuy => qtyBuy
      case Buy => totalBuy
      case Sold => totalSold
      case Profit => totalProfit
    }
  }

  /** A group key: `GROUP_NAME`, with missing and null values forming one
      group whose `_id` is null. */
  type Key = Option<string>

  /** The order of `$sort: {_id: 1}`: null before every string, strings by
      code point. */
  predicate KeyLt(a: Key, b: Key) {
    match a
    case None => b.Some?
    case Some(x) => b.Some? && Lt(x, b.value)
  }

  lemma KeyLtIrreflexive(a: Key)
    ensures !KeyLt(a, a)
  {
    if a.Some? {
      LtIrreflexive(a.value);
    }
  }

  lemma KeyLtTransitive(a: Key, b: Key, c: Key)
    requires KeyLt(a, b) && KeyLt(b, c)
    ensures KeyLt(a, c)
  {
    if a.Some? {
      LtTransitive(a.value, b.value, c.value);
    }
  }

  lemma KeyLtTotal(a: Key, b: Key)
    ensures a == b || KeyLt(a, b) || KeyLt(b, a)
  {
    if a.Some? && b.Some? {
      LtTotal(a.value, b.value);
    }
  }

  /** One output document of `$group`: `_id`, the pushed `items` and the
      totals `totalQtySold`, `totalQtyBuy`, `totalBuy`, `totalSold` and
      `totalProfit`. The totals are optional because the grand-total code
      reads them from plain JSON, where a field may be absent. */
  datatype GroupDoc = GroupDoc(id: Key, items: seq<Row>, totals: Totals<Option<real>>)

  /** The `$group` output for one key: every total is the `$sum` of that
      quantity over the group's items. */
  function Group(id: Key, items: seq<Row>): (g: GroupDoc)
    ensures g.id == id && g.items == items
    ensures forall f :: g.totals.Get(f) == Some(Total(items, f))
  {
    GroupDoc(id, items, Totals(Some(Total(items, QtySold)), Some(Total(items, QtyBuy)),
                               Some(Total(items, Buy)), Some(Total(items, Sold)),
                               Some(Total(items, Profit))))
  }

  /** Adds one document to groups kept in ascending key order: to the group
      with its key if there is one, otherwise to a new group at its place. */
  function Insert(gs: seq<GroupDoc>, row: Row): seq<GroupDoc>
    decreases |gs|
  {
    var k := row.rec.groupName;
    if gs == [] then [Group(k, [row])]
    else if gs[0].id == k then [Group(k, gs[0].items + [row])] + gs[1..]
    else if KeyLt(k, gs[0].id) then [Group(k, [row])] + gs
    else [gs[0]] + Insert(gs[1..], row)
  }

  /** `$group` followed by `$sort`. */
  function GroupBy(rows: seq<Row>): seq<GroupDoc> {
    if rows == [] then [] else Insert(GroupBy(rows[..|rows| - 1]), rows[|rows| - 1])
  }

  /** The whole pipeline: the documents `aggregate(...).toArray()` returns. */
  function Aggregate(m: Match, records: seq<Record>): seq<GroupDoc> {
    GroupBy(MatchedRows(m, records))
  }

  /** All items of all groups, group after group. */
  function Items(gs: seq<GroupDoc>): seq<Row> {
    if gs == [] then [] else gs[0].items + Items(gs[1..])
  }

  ghost predicate Sorted(gs: seq<GroupDoc>) {
    forall i, j :: 0 <= i < j < |gs| ==> KeyLt(gs[i].id, gs[j].id)
  }

  ghost predicate HasKey(gs: seq<GroupDoc>, k: Key) {
    exists i :: 0 <= i < |gs| && gs[i].id == k
  }

  /** Every group is non-empty and holds only documents with its key. */
  ghost predicate Keyed(gs: seq<GroupDoc>) {
    forall i :: 0 <= i < |gs| ==>
      |gs[i].items| > 0 && forall row :: row in gs[i].items ==> row.rec.groupName == gs[i].id
  }

  /** Every group's totals are the sums over its items. */
  ghost predicate Totalled(gs: seq<GroupDoc>) {
    forall i, f :: 0 <= i < |gs| ==> gs[i].totals.Get(f) == Some(Total(gs[i].items, f))
  }

  /** Insert adds the document's key to the keys present and no other. */
  lemma {:induction false} InsertKeys(gs: seq<GroupDoc>, row: Row)
    ensures forall x :: HasKey(Insert(gs, row), x) <==> HasKey(gs, x) || x == row.rec.groupName
    decreases |gs|
  {
    var k := row.rec.groupName;
    var r := Insert(gs, row);
    if gs == [] {
      assert r[0].id == k;
    } else if gs[0].id == k {
      assert forall i :: 0 <= i < |r| ==> r[i].id == gs[i].id;
      assert gs[0].id == k;
    } else if KeyLt(k, gs[0].id) {
      assert forall i :: 0 <= i < |gs| ==> r[i + 1].id == gs[i].id;
      assert r[0].id == k;
    } else {
      var rest := Insert(gs[1..], row);
      InsertKeys(gs[1..], row);
      assert r == [gs[0]] + rest;
      forall x
        ensures HasKey(r, x) <==> HasKey(gs, x) || x == k
      {
        KeysOfCons(gs[0], rest, x);
        KeysOfCons(gs[0], gs[1..], x);
        assert gs == [gs[0]] + gs[1..];
      }
    }
  }

  lemma KeysOfCons(g: GroupDoc, gs: seq<GroupDoc>, x: Key)
    ensures HasKey([g] + gs, x) <==> g.id == x || HasKey(gs, x)
  {
    var r := [g] + gs;
    if HasKey(r, x) {
      var t :| 0 <= t < |r| && r[t].id == x;
      if t > 0 {
        assert gs[t - 1].id == x;
      }
    }
    if HasKey(gs, x) {
      var t :| 0 <= t < |gs| && gs[t].id == x;
      assert r[t + 1].id == x;
    }
    assert r[0] == g;
  }

  lemma {:induction false} InsertSorted(gs: seq<GroupDoc>, row: Row)
    requires Sorted(gs)
    ensures Sorted(Insert(gs, row))
    decreases |gs|
  {
    var k := row.rec.groupName;
    var r := Insert(gs, row);
    if gs == [] {
    } else if gs[0].id == k {
      assert forall i :: 0 <= i < |r| ==> r[i].id == gs[i].id;
    } else if KeyLt(k, gs[0].id) {
      forall i, j | 0 <= i < j < |r|
        ensures KeyLt(r[i].id, r[j].id)
      {
        if i == 0 && j > 1 {
          KeyLtTransitive(k, gs[0].id, gs[j - 1].id);
        }
      }
    } else {
      KeyLtTotal(k, gs[0].id);
      var rest := Insert(gs[1..], row);
      InsertSorted(gs[1..], row);
      InsertKeys(gs[1..], row);
      forall j | 0 <= j < |rest|
        ensures KeyLt(gs[0].id, rest[j].id)
      {
        assert HasKey(rest, rest[j].id);
        if rest[j].id != k {
          var t :| 0 <= t < |gs[1..]| && gs[1..][t].id == rest[j].id;
          assert gs[t + 1].id == rest[j].id;
        }
      }
      assert r == [gs[0]] + rest;
      forall i, j | 0 <= i < j < |r|
        ensures KeyLt(r[i].id, r[j].id)
      {
        if i > 0 {
          assert r[i] == rest[i - 1] && r[j] == rest[j - 1];
        } else {
          assert r[j] == rest[j - 1];
        }
      }
    }
  }

  lemma {:induction false} InsertKeyed(gs: seq<GroupDoc>, row: Row)
    requires Keyed(gs) && Totalled(gs)
    ensures Keyed(Insert(gs, row)) && Totalled(Insert(gs, row))
    decreases |gs|
  {
    if gs != [] && gs[0].id != row.rec.groupName && !KeyLt(row.rec.groupName, gs[0].id) {
      InsertKeyed(gs[1..], row);
      var rest := Insert(gs[1..], row);
      assert forall i :: 0 < i < |Insert(gs, row)| ==> Insert(gs, row)[i] == rest[i - 1];
    }
  }

  lemma {:induction false} InsertItems(gs: seq<GroupDoc>, row: Row)
    ensures multiset(Items(Insert(gs, row))) == multiset(Items(gs)) + multiset{row}
    decreases |gs|
  {
    var k := row.rec.groupName;
    var r := Insert(gs, row);
    if gs == [] {
      assert Items(r) == [row] + Items([]);
    } else if gs[0].id == k {
      assert r[1..] == gs[1..];
    } else if KeyLt(k, gs[0].id) {
      assert r[1..] == gs;
    } else {
      InsertItems(gs[1..], row);
      assert r[1..] == Insert(gs[1..], row);
    }
  }

  lemma {:induction false} TotalConcat(a: seq<Row>, b: seq<Row>, f: Field)
    ensures Total(a + b, f) == Total(a, f) + Total(b, f)
    decreases |b|
  {
    if b == [] {
      assert a + b == a;
    } else {
      var ab := a + b;
      assert ab[..|ab| - 1] == a + b[..|b| - 1];
      assert ab[|ab| - 1] == b[|b| - 1];
      TotalConcat(a, b[..|b| - 1], f);
    }
  }

  lemma TotalSingle(row: Row, f: Field)
    ensures Total([row], f) == Measure(row, f)
  {
    assert [row][..0] == [];
  }

  lemma {:induction false} InsertTotal(gs: seq<GroupDoc>, row: Row, f: Field)
    ensures Total(Items(Insert(gs, row)), f) == Total(Items(gs), f) + Measure(row, f)
    decreases |gs|
  {
    var k := row.rec.groupName;
    var r := Insert(gs, row);
    TotalSingle(row, f);
    if gs == [] {
      assert Items(r) == [row] + Items([]);
      TotalConcat([row], [], f);
    } else if gs[0].id == k {
      assert r[1..] == gs[1..];
      TotalConcat(gs[0].items + [row], Items(gs[1..]), f);
      TotalConcat(gs[0].items, [row], f);
      TotalConcat(gs[0].items, Items(gs[1..]), f);
    } else if KeyLt(k, gs[0].id) {
      assert r[1..] == gs;
      TotalConcat([row], Items(gs), f);
    } else {
      InsertTotal(gs[1..], row, f);
      assert r[1..] == Insert(gs[1..], row);
      TotalConcat(gs[0].items, Items(r[1..]), f);
      TotalConcat(gs[0].items, Items(gs[1..]), f);
    }
  }

  lemma {:induction false} GroupBySorted(rows: seq<Row>)
    ensures Sorted(GroupBy(rows))
  {
    if rows != [] {
      GroupBySorted(rows[..|rows| - 1]);
      InsertSorted(GroupBy(rows[..|rows| - 1]), rows[|rows| - 1]);
    }
  }

  lemma {:induction false} GroupByKeyed(rows: seq<Row>)
    ensures Keyed(GroupBy(rows)) && Totalled(GroupBy(rows))
  {
    if rows != [] {
      GroupByKeyed(rows[..|rows| - 1]);
      InsertKeyed(GroupBy(rows[..|rows| - 1]), rows[|rows| - 1]);
    }
  }

  lemma {:induction false} GroupByItems(rows: seq<Row>)
    ensures multiset(Items(GroupBy(rows))) == multiset(rows)
  {
    if rows != [] {
      var init, last := rows[..|rows| - 1], rows[|rows| - 1];
      var gs := GroupBy(init);
      assert multiset(Items(gs)) == multiset(init) by {
        GroupByItems(init);
      }
      assert multiset(Items(Insert(gs, last))) == multiset(Items(gs)) + multiset{last} by {
        InsertItems(gs, last);
      }
      assert multiset(rows) == multiset(init) + multiset{last} by {
        assert rows == init + [last];
      }
      assert GroupBy(rows) == Insert(gs, last);
    }
  }

  lemma {:induction false} GroupByTotal(rows: seq<Row>, f: Field)
    ensures Total(Items(GroupBy(rows)), f) == Total(rows, f)
  {
    if rows != [] {
      var init, last := rows[..|rows| - 1], rows[|rows| - 1];
      GroupByTotal(init, f);
      InsertTotal(GroupBy(init), last, f);
    }
  }

  lemma {:induction false} GroupByKeys(rows: seq<Row>)
    ensures forall k :: HasKey(GroupBy(rows), k) <==> exists row :: row in rows && row.rec.groupName == k
  {
    if rows != [] {
      var init, last := rows[..|rows| - 1], rows[|rows| - 1];
      GroupByKeys(init);
      InsertKeys(GroupBy(init), last);
      assert rows == init + [last];
      forall k
        ensures HasKey(GroupBy(rows), k) <==> exists row :: row in rows && row.rec.groupName == k
      {
        if exists row :: row in rows && row.rec.groupName == k {
          var row :| row in rows && row.rec.groupName == k;
          if row != last {
            assert row in init;
          }
        }
      }
    }
  }

  /** A document is among the items exactly when some group holds it. */
  lemma {:induction false} InItems(gs: seq<GroupDoc>, row: Row)
    ensures row in Items(gs) <==> exists i :: 0 <= i < |gs| && row in gs[i].items
  {
    if gs != [] {
      InItems(gs[1..], row);
      if row in Items(gs[1..]) {
        var i :| 0 <= i < |gs[1..]| && row in gs[1..][i].items;
        assert row in gs[i + 1].items;
      }
      if exists i :: 0 <= i < |gs| && row in gs[i].items {
        var i :| 0 <= i < |gs| && row in gs[i].items;
        if i > 0 {
          assert row in gs[1..][i - 1].items;
        }
      }
    }
  }

  /** `$sort: {_id: 1}`: the groups come out in strictly ascending key
      order, so no key occurs twice. */
  lemma GroupsSorted(m: Match, records: seq<Record>)
    ensures var gs := Aggregate(m, records);
      forall i, j :: 0 <= i < j < |gs| ==> KeyLt(gs[i].id, gs[j].id)
  {
    GroupBySorted(MatchedRows(m, records));
  }

  /** The groups partition the matched documents: each group is non-empty
      and holds only documents with its key, there is one group per key
      that occurs, every matched document lies in exactly one group, and
      the groups together hold each matched document exactly as often as
      it was matched. */
  lemma GroupsPartition(m: Match, records: seq<Record>)
    ensures var rows, gs := MatchedRows(m, records), Aggregate(m, records);
      && multiset(Items(gs)) == multiset(rows)
      && (forall i :: 0 <= i < |gs| ==> |gs[i].items| > 0)
      && (forall i, row :: 0 <= i < |gs| && row in gs[i].items ==> row.rec.groupName == gs[i].id)
      && (forall k :: HasKey(gs, k) <==> exists row :: row in rows && row.rec.groupName == k)
      && (forall row :: row in rows ==> exists i :: 0 <= i < |gs| && row in gs[i].items)
      && (forall row, i, j :: 0 <= i < |gs| && 0 <= j < |gs| && row in gs[i].items && row in gs[j].items ==> i == j)
  {
    var rows, gs := MatchedRows(m, records), Aggregate(m, records);
    GroupBySorted(rows);
    GroupByKeyed(rows);
    GroupByItems(rows);
    GroupByKeys(rows);
    forall row | row in rows
      ensures exists i :: 0 <= i < |gs| && row in gs[i].items
    {
      assert row in multiset(rows);
      InItems(gs, row);
    }
    forall row, i, j | 0 <= i < |gs| && 0 <= j < |gs| && row in gs[i].items && row in gs[j].items
      ensures i == j
    {
      if i < j {
        assert KeyLt(gs[i].id, gs[j].id);
        KeyLtIrreflexive(gs[i].id);
      } else if j < i {
        assert KeyLt(gs[j].id, gs[i].id);
        KeyLtIrreflexive(gs[i].id);
      }
    }
  }

  /** Every group's totals are the sums of its items' quantities, profit
      being `SOLD - soldCost` per item. */
  lemma GroupTotalsAreSums(m: Match, records: seq<Record>)
    ensures var gs := Aggregate(m, records);
      forall i, f :: 0 <= i < |gs| ==> gs[i].totals.Get(f) == Some(Total(gs[i].items, f))
  {
    GroupByKeyed(MatchedRows(m, records));
  }

  /** A sum does not depend on the order of the documents, so the totals
      are well defined even though `$push` promises no order. */
  lemma {:induction false} TotalIgnoresOrder(a: seq<Row>, b: seq<Row>, f: Field)
    requires multiset(a) == multiset(b)
    ensures Total(a, f) == Total(b, f)
    decreases |a|
  {
    if a != [] {
      var init, x := a[..|a| - 1], a[|a| - 1];
      assert x in multiset(b) && multiset(init) + multiset{x} == multiset(b) by {
        assert a == init + [x];
      }
      var i :| 0 <= i < |b| && b[i] == x;
      var rest := b[..i] + b[i + 1..];
      CancelOne(init, b, i);
      TotalRemove(b, i, f);
      TotalIgnoresOrder(init, rest, f);
    }
  }

  /** Taking the same document out of two equal multisets leaves equal
      multisets. */
  lemma CancelOne(init: seq<Row>, b: seq<Row>, i: nat)
    requires i < |b| && multiset(init) + multiset{b[i]} == multiset(b)
    ensures multiset(init) == multiset(b[..i] + b[i + 1..])
  {
    var x, rest := b[i], b[..i] + b[i + 1..];
    RemoveOne(b, i);
    assert multiset(init) == multiset(init) + multiset{x} - multiset{x};
    assert multiset(rest) == multiset(rest) + multiset{x} - multiset{x};
  }

  lemma RemoveOne(b: seq<Row>, i: nat)
    requires i < |b|
    ensures multiset(b) == multiset(b[..i] + b[i + 1..]) + multiset{b[i]}
  {
    assert b == b[..i] + [b[i]] + b[i + 1..];
  }

  lemma TotalRemove(b: seq<Row>, i: nat, f: Field)
    requires i < |b|
    ensures Total(b, f) == Total(b[..i] + b[i + 1..], f) + Measure(b[i], f)
  {
    assert b == b[..i] + [b[i]] + b[i + 1..];
    TotalConcat(b[..i] + [b[i]], b[i + 1..], f);
    TotalConcat(b[..i], [b[i]], f);
    TotalConcat(b[..i], b[i + 1..], f);
    TotalSingle(b[i], f);
  }

  /** A filter that matches nothing yields no groups and zero sums. */
  lemma NoMatchNoGroups(m: Match, records: seq<Record>)
    requires forall i :: 0 <= i < |records| ==> !Matches(m, records[i])
    ensures Aggregate(m, records) == []
    ensures forall f :: Total(MatchedRows(m, records), f) == 0.0
  {
    FilterCounts(records, Matcher(m));
  }
}
