/**
 * The older price-history modal (src/components/HistoricalPriceModal.jsx): the
 * same decision order, but the change is read from the chart without checking
 * its length first.
 */
module LegacyHistoryModal {
  import opened Wrappers
  import opened JsNumber
  import opened Records
  import HistoryModal

  datatype Content =
    | Loading
    | ErrorMessage(text: string)
    | History(itemName: string, chart: seq<Point>, change: Num, cheaper: bool, magnitude: Num)
    /** `chartData[0].sats` on an empty chart throws. */
    | Crash
    | Nothing

  /** The drawn history: the chart with its first-to-last change, its direction and its magnitude. */
  function Drawn(itemName: string, chart: seq<Point>): (r: Content)
    requires |chart| >= 1
    ensures r.History? && r.itemName == itemName && r.chart == chart
    ensures r.change == HistoryModal.PercentChange(chart[0].sats, chart[|chart| - 1].sats)
    ensures r.cheaper <==> Less(r.change, Finite(0.0))
    ensures r.magnitude == Abs(r.change)
  {
    var change := HistoryModal.PercentChange(chart[0].sats, chart[|chart| - 1].sats);
    History(itemName, chart, change, Less(change, Finite(0.0)), Abs(change))
  }

  /** `renderContent` */
  function RenderContent(isLoading: bool, data: Option<ModalData>): (r: Content)
    ensures isLoading ==> r == Loading
    ensures !isLoading && HistoryModal.HasError(data) ==> r == ErrorMessage(data.value.error)
    ensures r.Crash? <==> !isLoading && data.Some? && data.value.ChartData? && |data.value.chartData| == 0
    ensures r.History? <==>
      !isLoading && !HistoryModal.HasError(data) && data.Some? && data.value.ChartData?
      && |data.value.chartData| >= 1
    ensures r.History? ==> r == Drawn(data.value.itemName, data.value.chartData)
    ensures r.Nothing? <==> !isLoading && (data.None? || (data.value.ErrorData? && data.value.error == ""))
  {
    if isLoading then Loading
    else if HistoryModal.HasError(data) then ErrorMessage(data.value.error)
    else if data.Some? && data.value.ChartData? then
      if |data.value.chartData| == 0 then Crash
      else Drawn(data.value.itemName, data.value.chartData)
    else Nothing
  }

  /** One point compares with itself: "0.0% MORE EXPENSIVE", or NaN when that point is 0 sats. */
  lemma SinglePoint(itemName: string, p: Point)
    requires p.sats.Finite?
    ensures var r := RenderContent(false, Some(ChartData(itemName, [p])));
      r.History? && !r.cheaper
      && r.magnitude == if p.sats.v == 0.0 then NaN else Finite(0.0)
  {
  }

  /** From two points on, the older modal shows what the newer one shows. */
  lemma AgreesFromTwoPoints(itemName: string, chart: seq<Point>)
    requires |chart| >= 2
    ensures var older := RenderContent(false, Some(ChartData(itemName, chart)));
      var newer := HistoryModal.RenderContent(false, Some(ChartData(itemName, chart)));
      older.History? && newer.History? && older.change == newer.change && older.cheaper == newer.cheaper
  {
    assert !HistoryModal.HasError(Some(ChartData(itemName, chart)));
  }
}
