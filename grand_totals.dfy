/** The `grandTotals` reduce of the two handlers: a loop over the group
    documents that adds each group's five totals to five running sums.
    api/stockhistory.js reads each total as `g.total || 0`, so an absent
    field counts as 0; api/stockview.js adds `g.total` as it is, so an
    absent field turns the sum into `NaN`. */
module GrandTotals {
  import opened Wrappers
  import opened Aggregation

  /** The guarded grand total of one quantity: the sum of the groups'
      totals of that quantity, an absent total counting as 0. */
  function GuardedSum(gs: seq<GroupDoc>, f: Field): real {
    if gs == [] then 0.0 else GuardedSum(gs[..|gs| - 1], f) + gs[|gs| - 1].totals.Get(f).GetOr(0.0)
  }

  /** The reduce of api/stockhistory.js: starting from five zeros, each
      group adds `g.total || 0` to each running sum. */
  method GrandTotalsGuarded(data: seq<GroupDoc>) returns (acc: Totals<real>)
    ensures forall f :: acc.Get(f) == GuardedSum(data, f)
  {
    acc := Totals(0.0, 0.0, 0.0, 0.0, 0.0);
    var i := 0;
    while i < |data|
      invariant 0 <= i <= |data|
      invariant forall f :: acc.Get(f) == GuardedSum(data[..i], f)
    {
      var g := data[i];
      acc := acc.(qtySold := acc.qtySold + g.totals.qtySold.GetOr(0.0));
      acc := acc.(qtyBuy := acc.qtyBuy + g.totals.qtyBuy.GetOr(0.0));
      acc := acc.(totalBuy := acc.totalBuy + g.totals.totalBuy.GetOr(0.0));
      acc := acc.(totalSold := acc.totalSold + g.totals.totalSold.GetOr(0.0));
      acc := acc.(totalProfit := acc.totalProfit + g.totals.totalProfit.GetOr(0.0));
      assert data[..i + 1][..i] == data[..i];
      i := i + 1;
    }
    assert data[..i] == data;
  }

  /** A JavaScript number as far as the unguarded sums need it: a real
      value or `NaN`, which is what `0 + undefined` gives and what every
      later addition keeps. */
  datatype JsNum = Num(value: real) | NaN

  /** `a + x` where `x` is a group total that may be absent. */
  function Plus(a: JsNum, x: Option<real>): JsNum {
    match (a, x)
    case (Num(u), Some(v)) => Num(u + v)
    case _ => NaN
  }

  /** The unguarded grand total of one quantity. */
  function UnguardedSum(gs: seq<GroupDoc>, f: Field): JsNum {
    if gs == [] then Num(0.0) else Plus(UnguardedSum(gs[..|gs| - 1], f), gs[|gs| - 1].totals.Get(f))
  }

  /** The reduce of api/stockview.js: starting from five zeros, each group
      adds `g.total` to each running sum. */
  method GrandTotalsUnguarded(data: seq<GroupDoc>) returns (acc: Totals<JsNum>)
    ensures forall f :: acc.Get(f) == UnguardedSum(data, f)
  {
    acc := Totals(Num(0.0), Num(0.0), Num(0.0), Num(0.0), Num(0.0));
    var i := 0;
    while i < |data|
      invariant 0 <= i <= |data|
      invariant forall f :: acc.Get(f) == UnguardedSum(data[..i], f)
    {
      var g := data[i];
      acc := acc.(qtySold := Plus(acc.qtySold, g.totals.qtySold));
      acc := acc.(qtyBuy := Plus(acc.qtyBuy, g.totals.qtyBuy));
      acc := acc.(totalBuy := Plus(acc.totalBuy, g.totals.totalBuy));
      acc := acc.(totalSold := Plus(acc.totalSold, g.totals.totalSold));
      acc := acc.(totalProfit := Plus(acc.totalProfit, g.totals.totalProfit));
      assert data[..i + 1][..i] == data[..i];
      i := i + 1;
    }
    assert data[..i] == data;
  }

  /** The two reduces compared: the unguarded sum is `NaN` exactly when
      some group lacks the total, and otherwise equals the guarded sum. */
  lemma {:induction false} UnguardedVersusGuarded(gs: seq<GroupDoc>, f: Field)
    ensures UnguardedSum(gs, f) == NaN <==> exists i :: 0 <= i < |gs| && gs[i].totals.Get(f).None?
    ensures UnguardedSum(gs, f) != NaN ==> UnguardedSum(gs, f) == Num(GuardedSum(gs, f))
  {
    if gs != [] {
      var init := gs[..|gs| - 1];
      UnguardedVersusGuarded(init, f);
      if exists i :: 0 <= i < |init| && init[i].totals.Get(f).None? {
        var i :| 0 <= i < |init| && init[i].totals.Get(f).None?;
        assert gs[i] == init[i];
      }
      if exists i :: 0 <= i < |gs| && gs[i].totals.Get(f).None? {
        var i :| 0 <= i < |gs| && gs[i].totals.Get(f).None?;
        if i < |init| {
          assert init[i] == gs[i];
        }
      }
    }
  }

  /** Dropping the last group leaves the items of the others. */
  lemma {:induction false} ItemsSnoc(gs: seq<GroupDoc>)
    requires gs != []
    ensures Items(gs) == Items(gs[..|gs| - 1]) + gs[|gs| - 1].items
  {
    if |gs| > 1 {
      var tail := gs[1..];
      ItemsSnoc(tail);
      assert tail[..|tail| - 1] == gs[..|gs| - 1][1..];
      assert gs[..|gs| - 1][0] == gs[0];
    } else {
      assert gs[..0] == [] && gs[1..] == [];
    }
  }

  /** Over groups whose totals are their items' sums, the guarded grand
      total is the sum over all the items. */
  lemma {:induction false} GuardedSumOfItems(gs: seq<GroupDoc>, f: Field)
    requires Totalled(gs)
    ensures GuardedSum(gs, f) == Total(Items(gs), f)
  {
    if gs != [] {
      var init := gs[..|gs| - 1];
      assert Totalled(init) by {
        assert forall i :: 0 <= i < |init| ==> init[i] == gs[i];
      }
      GuardedSumOfItems(init, f);
      ItemsSnoc(gs);
      TotalConcat(Items(init), gs[|gs| - 1].items, f);
    }
  }

  /** The totals the pipeline returns are all present. */
  lemma TotalsPresent(m: Match, records: seq<Record>)
    ensures var gs := Aggregate(m, records);
      forall i, f :: 0 <= i < |gs| ==> gs[i].totals.Get(f).Some?
  {
    GroupTotalsAreSums(m, records);
  }

  /** Conservation: each guarded grand total equals the sum of that
      quantity over every matched document. */
  lemma GuardedConserves(m: Match, records: seq<Record>, f: Field)
    ensures GuardedSum(Aggregate(m, records), f) == Total(MatchedRows(m, records), f)
  {
    var rows := MatchedRows(m, records);
    GroupByKeyed(rows);
    GuardedSumOfItems(GroupBy(rows), f);
    GroupByTotal(rows, f);
  }

  /** On what the pipeline returns, the unguarded reduce never meets an
      absent total, so it too gives the sum over every matched document. */
  lemma UnguardedConserves(m: Match, records: seq<Record>, f: Field)
    ensures UnguardedSum(Aggregate(m, records), f) == Num(Total(MatchedRows(m, records), f))
  {
    TotalsPresent(m, records);
    UnguardedVersusGuarded(Aggregate(m, records), f);
    GuardedConserves(m, records, f);
  }
}
