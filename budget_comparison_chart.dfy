/**
 * The frontend `BudgetComparisonChart`: a bar chart of budgeted against spent amounts, one
 * bar pair per item that has a positive budget or positive spending.
 */
module BudgetComparisonChart {
  import opened Wrappers
  import opened Collections

  /** An element of the `data` prop. */
  datatype ChartItem = ChartItem(name: string, budgeted: real, spent: real)

  /** What the chart renders: the loading text, the placeholder, or the aligned bar arrays. */
  datatype ComparisonView =
    | LoadingChart
    | NoComparison
    | Bars(labels: seq<string>, budgeted: seq<real>, spent: seq<real>)

  /** `item.budgeted > 0 || item.spent > 0`. */
  predicate Charted(item: ChartItem) {
    item.budgeted > 0.0 || item.spent > 0.0
  }

  /** `filteredData`. */
  function FilteredData(data: seq<ChartItem>): seq<ChartItem> {
    Filter(data, Charted)
  }

  /** The filter keeps exactly the items with something positive to show, and changes none. */
  lemma FilteredDataSpec(data: seq<ChartItem>)
    ensures forall k :: 0 <= k < |FilteredData(data)| ==> FilteredData(data)[k] in data && Charted(FilteredData(data)[k])
    ensures forall i :: 0 <= i < |data| && Charted(data[i]) ==> data[i] in FilteredData(data)
    ensures (forall i :: 0 <= i < |data| ==> !Charted(data[i])) <==> |FilteredData(data)| == 0
  {
    var f := FilteredData(data);
    if forall i :: 0 <= i < |data| ==> !Charted(data[i]) {
      FilterNone(data, Charted);
    } else {
      var i :| 0 <= i < |data| && Charted(data[i]);
      assert data[i] in f;
    }
  }

  /** The filter keeps the order of the items: filtering a concatenation filters each part. */
  lemma FilteredDataInOrder(a: seq<ChartItem>, b: seq<ChartItem>)
    ensures FilteredData(a + b) == FilteredData(a) + FilteredData(b)
  {
    FilterAppend(a, b, Charted);
  }

  /**
   * The chart: the loading text when `data` is not an array (modelled as `None`), the
   * placeholder when no item is kept, and otherwise three arrays index-aligned with the kept
   * items.
   */
  function Render(data: Option<seq<ChartItem>>): (r: ComparisonView)
    ensures r.LoadingChart? <==> data.None?
    ensures r.NoComparison? <==> data.Some? && |FilteredData(data.value)| == 0
    ensures r.Bars? ==>
              && data.Some?
              && |r.labels| == |r.budgeted| == |r.spent| == |FilteredData(data.value)| > 0
              && forall i :: 0 <= i < |r.labels| ==>
                   && r.labels[i] == FilteredData(data.value)[i].name
                   && r.budgeted[i] == FilteredData(data.value)[i].budgeted
                   && r.spent[i] == FilteredData(data.value)[i].spent
  {
    match data
    case None => LoadingChart
    case Some(items) =>
      var kept := FilteredData(items);
      if |kept| == 0 then NoComparison
      else
        Bars(seq(|kept|, i requires 0 <= i < |kept| => kept[i].name),
             seq(|kept|, i requires 0 <= i < |kept| => kept[i].budgeted),
             seq(|kept|, i requires 0 <= i < |kept| => kept[i].spent))
  }

  /** Every bar pair shown has a positive budget or positive spending. */
  lemma BarsArePositive(data: seq<ChartItem>)
    requires Render(Some(data)).Bars?
    ensures var r := Render(Some(data));
            forall i :: 0 <= i < |r.labels| ==> r.budgeted[i] > 0.0 || r.spent[i] > 0.0
  {
    FilteredDataSpec(data);
  }
}
