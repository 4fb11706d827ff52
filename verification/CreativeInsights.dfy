/** Ad rows grouped by a creative dimension (apps/api/src/metrics/metrics.service.ts). */
module CreativeInsights {
  import opened Common
  import opened Accumulators
  import opened MetricsData
  import opened PerformanceLaws
  import P = Performance
  import H = Cohorts

  const UNTAGGED := "(untagged)"

  /** The ad's value of the dimension; no creative, no value and an empty value are all untagged. */
  function ValueOf(ad: Ad, dimension: Dimension): string {
    if ad.creative.Some? && dimension in ad.creative.value && ad.creative.value[dimension] != ""
    then ad.creative.value[dimension] else UNTAGGED
  }

  function DimensionByAd(ads: seq<Ad>, dimension: Dimension): map<AdId, string> {
    if |ads| == 0 then map[] else DimensionByAd(Front(ads), dimension)[Last(ads).id := ValueOf(Last(ads), dimension)]
  }

  function GroupName(dims: map<AdId, string>, ad: AdId): string {
    if ad in dims then dims[ad] else UNTAGGED
  }

  type Groups = Table<string>

  const NO_GROUPS: Groups := Table([], map[])

  function AddRow(groups: Groups, dims: map<AdId, string>, r: P.Row): Groups {
    if r.node.AdNode? then AddTo(groups, GroupName(dims, r.node.ad), r.totals) else groups
  }

  function GroupRows(dims: map<AdId, string>, rows: seq<P.Row>): Groups {
    if |rows| == 0 then NO_GROUPS else AddRow(GroupRows(dims, Front(rows)), dims, Last(rows))
  }

  datatype Row = Row(value: string, totals: Totals, roas: Option<real>)

  function RowOf(value: string, t: Totals): Row {
    Row(value, Rounded(t), if t.spend != 0.0 then Some(t.revenue / t.spend) else None)
  }

  /** A group without spend counts as one that returned -1. */
  function ReturnOf(r: Row): real {
    if r.roas.Some? then r.roas.value else -1.0
  }

  /** Highest return first. */
  function RoasKey(r: Row): real {
    -ReturnOf(r)
  }

  function RowsOf(groups: Groups, order: seq<string>): seq<Row>
    requires forall v :: v in order ==> v in groups.rows
  {
    seq(|order|, i requires 0 <= i < |order| =>
      assert order[i] in order;
      RowOf(order[i], groups.rows[order[i]]))
  }

  function SortedRows(groups: Groups): seq<Row>
    requires Listed(groups)
  {
    SortBy(RowsOf(groups, groups.order), RoasKey)
  }

  lemma {:induction false} GroupsListed(dims: map<AdId, string>, rows: seq<P.Row>)
    ensures Listed(GroupRows(dims, rows))
  {
    if |rows| > 0 {
      GroupsListed(dims, Front(rows));
      var groups, r := GroupRows(dims, Front(rows)), Last(rows);
      if r.node.AdNode? { AddToAdds(groups, GroupName(dims, r.node.ad), r.totals); }
    }
  }

  function GroupTable(db: Db, range: Range, dimension: Dimension, model: Model): (g: Groups)
    ensures Listed(g)
  {
    GroupsListed(DimensionByAd(db.ads, dimension), P.Report(db, range, model));
    GroupRows(DimensionByAd(db.ads, dimension), P.Report(db, range, model))
  }

  function Report(db: Db, range: Range, dimension: Dimension, model: Model): seq<Row> {
    SortedRows(GroupTable(db, range, dimension, model))
  }

  // ---- Conservation ----

  /** The ads of one group among the report's nodes. */
  function Members(dims: map<AdId, string>, order: seq<P.Node>, v: string): seq<P.Node> {
    Filter(order, (n: P.Node) => n.AdNode? && GroupName(dims, n.ad) == v)
  }

  ghost predicate RowsReport(rows: seq<P.Row>, order: seq<P.Node>, reported: P.Acc) {
    && |rows| == |order|
    && forall i :: 0 <= i < |order| ==> rows[i].node == order[i] && order[i] in reported && rows[i].totals == reported[order[i]]
  }

  lemma {:induction false} MembersSnoc(dims: map<AdId, string>, order: seq<P.Node>, v: string)
    requires |order| > 0
    ensures var n := Last(order);
            Members(dims, order, v) == Members(dims, Front(order), v)
                                       + (if n.AdNode? && GroupName(dims, n.ad) == v then [n] else [])
  {
  }

  predicate Joins(dims: map<AdId, string>, n: P.Node, v: string) {
    n.AdNode? && GroupName(dims, n.ad) == v
  }

  lemma {:induction false} AddRowExact(groups: Groups, dims: map<AdId, string>, r: P.Row, v: string)
    ensures var g := AddRow(groups, dims, r);
            && (v in g.rows <==> v in groups.rows || Joins(dims, r.node, v))
            && (Joins(dims, r.node, v) ==> g.rows[v] == Plus(if v in groups.rows then groups.rows[v] else ZERO, r.totals))
            && (v in g.rows && !Joins(dims, r.node, v) ==> g.rows[v] == groups.rows[v])
  {
  }

  /** The group v of a table holds exactly the given nodes. */
  ghost predicate GroupIs(groups: Groups, v: string, members: seq<P.Node>, reported: P.Acc) {
    && (forall n :: n in members ==> n in reported)
    && (v in groups.rows <==> |members| > 0)
    && (v in groups.rows ==> groups.rows[v] == SumOver(members, reported))
  }

  lemma {:induction false} GroupStep(groups: Groups, dims: map<AdId, string>, r: P.Row, v: string, members: seq<P.Node>, reported: P.Acc)
    requires GroupIs(groups, v, members, reported)
    requires r.node in reported && r.totals == reported[r.node]
    ensures GroupIs(AddRow(groups, dims, r), v, members + (if Joins(dims, r.node, v) then [r.node] else []), reported)
  {
    AddRowExact(groups, dims, r, v);
    if Joins(dims, r.node, v) {
      SumSnoc(members, r.node, reported);
    } else {
      assert members + [] == members;
    }
  }

  /** A group exists exactly if some ad row falls in it, and holds exactly the rows that do. */
  lemma {:induction false} GroupHoldsMembers(dims: map<AdId, string>, rows: seq<P.Row>, order: seq<P.Node>, reported: P.Acc, v: string)
    requires RowsReport(rows, order, reported)
    ensures GroupIs(GroupRows(dims, rows), v, Members(dims, order, v), reported)
  {
    if |rows| > 0 {
      assert RowsReport(Front(rows), Front(order), reported);
      GroupHoldsMembers(dims, Front(rows), Front(order), reported, v);
      MembersSnoc(dims, order, v);
      GroupStep(GroupRows(dims, Front(rows)), dims, Last(rows), v, Members(dims, Front(order), v), reported);
    }
  }

  function AdRows(order: seq<P.Node>): seq<P.Node> {
    Filter(order, (n: P.Node) => n.AdNode?)
  }

  /** All groups together hold all ad rows. */
  lemma {:induction false} GroupsHoldAdRows(dims: map<AdId, string>, rows: seq<P.Row>, order: seq<P.Node>, reported: P.Acc)
    requires RowsReport(rows, order, reported)
    ensures forall n :: n in AdRows(order) ==> n in reported
    ensures Listed(GroupRows(dims, rows))
    ensures H.Total(GroupRows(dims, rows)) == SumOver(AdRows(order), reported)
  {
    GroupsListed(dims, rows);
    if |rows| > 0 {
      assert RowsReport(Front(rows), Front(order), reported);
      GroupsHoldAdRows(dims, Front(rows), Front(order), reported);
      var n := Last(order);
      if n.AdNode? {
        assert Front(AdRows(Front(order)) + [n]) == AdRows(Front(order));
        AddToAdds(GroupRows(dims, Front(rows)), GroupName(dims, n.ad), reported[n]);
      }
    }
  }

  lemma {:induction false} ReportRowsReport(db: Db, range: Range, model: Model)
    ensures RowsReport(P.Report(db, range, model), P.BuildTree(db.ads).order, Reported(P.Accumulated(db, range, model)))
  {
    P.OrderIsInfo(db.ads);
    P.AccumulatedNodes(db, range, model);
  }

  /**
   * A group's reported money is within 0.005 (n + 1) of the true, unrounded total of its n ads, and its
   * counts are exactly theirs.
   */
  lemma {:induction false} GroupNearTruth(db: Db, range: Range, dimension: Dimension, model: Model, v: string)
    requires v in GroupTable(db, range, dimension, model).rows
    ensures var acc := P.Accumulated(db, range, model);
            var members := Members(DimensionByAd(db.ads, dimension), P.BuildTree(db.ads).order, v);
            var shown := RowOf(v, GroupTable(db, range, dimension, model).rows[v]).totals;
            && |members| > 0 && (forall n :: n in members ==> n in acc)
            && var truth := SumOver(members, acc);
               && Near(shown.spend, truth.spend, |members| + 1) && Near(shown.revenue, truth.revenue, |members| + 1)
               && shown == truth.(spend := shown.spend, revenue := shown.revenue)
  {
    var dims, order := DimensionByAd(db.ads, dimension), P.BuildTree(db.ads).order;
    var acc := P.Accumulated(db, range, model);
    ReportRowsReport(db, range, model);
    GroupHoldsMembers(dims, P.Report(db, range, model), order, Reported(acc), v);
    RoundedSum(Members(dims, order, v), acc, Reported(acc));
  }

  /** Summed over the groups, every count equals the sum over the ad rows. */
  lemma {:induction false} GroupsConserve(db: Db, range: Range, dimension: Dimension, model: Model)
    ensures var acc, ads := P.Accumulated(db, range, model), AdRows(P.BuildTree(db.ads).order);
            && (forall n :: n in ads ==> n in acc)
            && var groups, truth := H.Total(GroupTable(db, range, dimension, model)), SumOver(ads, acc);
               && groups == truth.(spend := groups.spend, revenue := groups.revenue)
               && Near(groups.spend, truth.spend, |ads|) && Near(groups.revenue, truth.revenue, |ads|)
  {
    var dims, order := DimensionByAd(db.ads, dimension), P.BuildTree(db.ads).order;
    var acc := P.Accumulated(db, range, model);
    ReportRowsReport(db, range, model);
    GroupsHoldAdRows(dims, P.Report(db, range, model), order, Reported(acc));
    RoundedSum(AdRows(order), acc, Reported(acc));
  }

  /** The report has one row for each group and ranks them by return, groups without spend as if it were -1. */
  lemma {:induction false} ReportRanksGroups(db: Db, range: Range, dimension: Dimension, model: Model)
    ensures var groups, r := GroupTable(db, range, dimension, model), Report(db, range, dimension, model);
            && |r| == |groups.rows|
            && (forall x :: x in r ==> x.value in groups.rows && x == RowOf(x.value, groups.rows[x.value]))
            && (forall v :: v in groups.rows ==> RowOf(v, groups.rows[v]) in r)
            && forall i, j :: 0 <= i < j < |r| ==> ReturnOf(r[j]) <= ReturnOf(r[i])
  {
    var groups := GroupTable(db, range, dimension, model);
    GroupsListed(DimensionByAd(db.ads, dimension), P.Report(db, range, model));
    RankedRows(groups);
  }

  lemma {:induction false} RankedRows(groups: Groups)
    requires Listed(groups)
    ensures var r := SortedRows(groups);
            && |r| == |groups.rows|
            && (forall x :: x in r ==> x.value in groups.rows && x == RowOf(x.value, groups.rows[x.value]))
            && (forall v :: v in groups.rows ==> RowOf(v, groups.rows[v]) in r)
            && forall i, j :: 0 <= i < j < |r| ==> ReturnOf(r[j]) <= ReturnOf(r[i])
  {
    RowsListGroups(groups);
    SortSorts(RowsOf(groups, groups.order), RoasKey);
    var r := SortedRows(groups);
    forall i, j | 0 <= i < j < |r|
      ensures ReturnOf(r[j]) <= ReturnOf(r[i])
    {
      assert RoasKey(r[i]) <= RoasKey(r[j]);
    }
  }

  lemma {:induction false} RowsListGroups(groups: Groups)
    requires Listed(groups)
    ensures var rows := RowsOf(groups, groups.order);
            && |rows| == |groups.rows|
            && (forall x :: x in rows ==> x.value in groups.rows && x == RowOf(x.value, groups.rows[x.value]))
            && forall v :: v in groups.rows ==> RowOf(v, groups.rows[v]) in rows
  {
    var rows := RowsOf(groups, groups.order);
    DistinctKeys(groups.order, groups.rows);
    forall x | x in rows
      ensures x.value in groups.rows && x == RowOf(x.value, groups.rows[x.value])
    {
      var i :| 0 <= i < |rows| && rows[i] == x;
      assert groups.order[i] in groups.order;
    }
    forall v | v in groups.rows
      ensures RowOf(v, groups.rows[v]) in rows
    {
      var i :| 0 <= i < |groups.order| && groups.order[i] == v;
      assert rows[i] == RowOf(v, groups.rows[v]);
    }
  }

  lemma {:induction false} DistinctKeys(order: seq<string>, rows: map<string, Totals>)
    requires Distinct(order) && forall k :: k in order <==> k in rows
    ensures |order| == |rows|
  {
    if |order| > 0 {
      assert order == Front(order) + [Last(order)];
      assert Last(order) !in Front(order);
      DistinctKeys(Front(order), rows - {Last(order)});
      assert rows.Keys == (rows - {Last(order)}).Keys + {Last(order)};
    } else {
      assert rows.Keys == {};
    }
  }
}
