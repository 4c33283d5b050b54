/**
 * What the price-history modal shows (src/components/shared/HistoricalPriceModal.jsx):
 * a skeleton while loading, else the error, else the chart with the change
 * between its first and last points, else nothing.
 */
module HistoryModal {
  import opened Wrappers
  import opened JsNumber
  import opened Records

  datatype Content =
    | Skeleton
    | ErrorMessage(text: string)
    | NotEnoughData
    | History(itemName: string, chart: seq<Point>, change: Num, cheaper: bool, magnitude: Num)
    | Nothing

  /** `((endPrice - startPrice) / startPrice) * 100` */
  function PercentChange(start: Num, end: Num): (c: Num)
    ensures start.Finite? && end.Finite? && start.v != 0.0 ==>
      c == Finite((end.v - start.v) / start.v * 100.0)
    ensures start.NaN? || end.NaN? ==> c.NaN?
  {
    Scale(Div(Sub(end, start), start), 100.0)
  }

  /** With a positive finite start, a negative change means the end is lower. */
  lemma ChangeNegativeIffLower(start: Num, end: Num)
    requires start.Finite? && end.Finite? && start.v > 0.0
    ensures Less(PercentChange(start, end), Finite(0.0)) <==> end.v < start.v
  {
    var q := (end.v - start.v) / start.v;
    assert q * start.v == end.v - start.v;
  }

  /** `data && data.error`: an error record with a non-empty message. */
  predicate HasError(data: Option<ModalData>) {
    data.Some? && data.value.ErrorData? && data.value.error != ""
  }

  /** The drawn history: the chart with its first-to-last change, its direction and its magnitude. */
  function Drawn(itemName: string, chart: seq<Point>): (r: Content)
    requires |chart| >= 2
    ensures r.History? && r.itemName == itemName && r.chart == chart
    ensures r.change == PercentChange(chart[0].sats, chart[|chart| - 1].sats)
    ensures r.cheaper <==> Less(r.change, Finite(0.0))
    ensures r.magnitude == Abs(r.change)
  {
    var change := PercentChange(chart[0].sats, chart[|chart| - 1].sats);
    History(itemName, chart, change, Less(change, Finite(0.0)), Abs(change))
  }

  /** `renderContent` */
  function RenderContent(isLoading: bool, data: Option<ModalData>): (r: Content)
    ensures isLoading ==> r == Skeleton
    ensures !isLoading && HasError(data) ==> r == ErrorMessage(data.value.error)
    ensures r.NotEnoughData? <==>
      !isLoading && data.Some? && data.value.ChartData? && |data.value.chartData| < 2
    ensures r.History? <==>
      !isLoading && !HasError(data) && data.Some? && data.value.ChartData? && |data.value.chartData| >= 2
    ensures r.History? ==> r == Drawn(data.value.itemName, data.value.chartData)
    ensures r.Nothing? <==> !isLoading && (data.None? || (data.value.ErrorData? && data.value.error == ""))
  {
    if isLoading then Skeleton
    else if HasError(data) then ErrorMessage(data.value.error)
    else if data.Some? && data.value.ChartData? then
      if |data.value.chartData| < 2 then NotEnoughData
      else Drawn(data.value.itemName, data.value.chartData)
    else Nothing
  }

  /** A chart that starts at a positive cost reads "CHEAPER" exactly when it ends lower. */
  lemma CheaperIffEndsLower(itemName: string, chart: seq<Point>)
    requires |chart| >= 2 && chart[0].sats.Finite? && chart[|chart| - 1].sats.Finite?
    requires chart[0].sats.v > 0.0
    ensures var r := RenderContent(false, Some(ChartData(itemName, chart)));
      r.History? && (r.cheaper <==> chart[|chart| - 1].sats.v < chart[0].sats.v)
  {
    ChangeNegativeIffLower(chart[0].sats, chart[|chart| - 1].sats);
  }
}
