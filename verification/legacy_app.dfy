/**
 * The older top-level component (src/App.jsx): it owns the saved list, the
 * rates, and the comparison modal with its per-currency history cache.
 */
module LegacyApp {
  import opened Wrappers
  import opened JsNumber
  import opened Records
  import Text
  import SavedItemsStore
  import LegacyHistoryModal

  const FetchError: string := "Could not fetch historical data for this item."

  /** `Math.round((parseFloat(item.price) / btcPrice) * 100_000_000)` for one history sample. */
  function SampleSats(price: real, btcPrice: real): (n: Num)
    ensures btcPrice != 0.0 ==> n.Finite? && n.v == (price / btcPrice * 100000000.0 + 0.5).Floor as real
  {
    Round(Scale(Div(Finite(price), Finite(btcPrice)), 100000000.0))
  }

  /** `btcPrices[item.currency.toLowerCase()]`: the rate, or `undefined` (NaN in arithmetic). */
  function CurrentRate(btcPrices: map<string, real>, currency: string): (r: Num)
    ensures r.NaN? <==> Text.Lower(currency) !in btcPrices
    ensures r.Finite? ==> r.v == btcPrices[Text.Lower(currency)]
  {
    if Text.Lower(currency) in btcPrices then Finite(btcPrices[Text.Lower(currency)]) else NaN
  }

  /**
   * The chart of an item: one point per history sample, dated by `dateOf`, then
   * today's point at the current rate for the item's lower-cased currency.
   */
  function ChartPoints(price: real, history: seq<Sample>, btcPrices: map<string, real>,
                       dateOf: int -> string, today: string, currency: string): (chart: seq<Point>)
    ensures |chart| == |history| + 1
    ensures forall i :: 0 <= i < |history| ==>
      chart[i] == Point(dateOf(history[i].time), SampleSats(price, history[i].price))
    ensures chart[|history|] == Point(today,
      Round(Scale(Div(Finite(price), CurrentRate(btcPrices, currency)), 100000000.0)))
    decreases |history|
  {
    if |history| == 0 then
      [Point(today, Round(Scale(Div(Finite(price), CurrentRate(btcPrices, currency)), 100000000.0)))]
    else
      var h := history[0];
      [Point(dateOf(h.time), SampleSats(price, h.price))]
        + ChartPoints(price, history[1..], btcPrices, dateOf, today, currency)
  }

  /** Today's point is a whole number of sats when the rate is known and non-zero, and NaN when it is missing. */
  lemma TodayPoint(price: real, history: seq<Sample>, btcPrices: map<string, real>,
                   dateOf: int -> string, today: string, currency: string)
    ensures var last := ChartPoints(price, history, btcPrices, dateOf, today, currency)[|history|].sats;
      (Text.Lower(currency) !in btcPrices ==> last.NaN?)
      && (Text.Lower(currency) in btcPrices && btcPrices[Text.Lower(currency)] != 0.0 ==>
            last.Finite?)
  {
  }

  /** Every chart the app builds has a point, so the older modal never reads an empty chart. */
  lemma ChartNeverCrashesModal(itemName: string, price: real, history: seq<Sample>,
                               btcPrices: map<string, real>, dateOf: int -> string,
                               today: string, currency: string)
    ensures !LegacyHistoryModal.RenderContent(false,
      Some(ChartData(itemName, ChartPoints(price, history, btcPrices, dateOf, today, currency)))).Crash?
  {
  }

  class App {
    var btcPrices: Option<map<string, real>>
    var isLoading: bool
    var savedItems: seq<SavedItem>
    var isModalOpen: bool
    var modalData: Option<ModalData>
    var isModalLoading: bool
    var historyCache: map<string, seq<Sample>>

    /** The first render: rates loading, the stored list, the modal closed and an empty cache. */
    constructor (stored: seq<SavedItem>)
      ensures btcPrices == None && isLoading && savedItems == stored
      ensures !isModalOpen && modalData == None && !isModalLoading && historyCache == map[]
    {
      btcPrices := None;
      isLoading := true;
      savedItems := stored;
      isModalOpen := false;
      modalData := None;
      isModalLoading := false;
      historyCache := map[];
    }

    /** `loadPrices` once the fetch has answered: keep what it gave and stop loading. */
    method LoadPrices(prices: Option<map<string, real>>)
      modifies this`btcPrices, this`isLoading
      ensures btcPrices == prices && !isLoading
    {
      btcPrices := prices;
      isLoading := false;
    }

    /** `addItemToList`: append the item stamped with the clock's id and date. */
    method AddItemToList(d: Draft, now: int, isoNow: string)
      modifies this`savedItems
      ensures savedItems == old(savedItems) + [Stamp(d, now, isoNow)]
    {
      savedItems := savedItems + [Stamp(d, now, isoNow)];
    }

    /** `removeItemFromList`: drop every record with this id. */
    method RemoveItemFromList(id: int)
      modifies this`savedItems
      ensures savedItems == SavedItemsStore.Without(old(savedItems), id)
    {
      savedItems := SavedItemsStore.Without(savedItems, id);
    }

    /** `clearList` */
    method ClearList()
      modifies this`savedItems
      ensures savedItems == []
    {
      savedItems := [];
    }

    /**
     * `handleComparePrice` once its fetch (if any) has answered with `fetched`:
     * a cached history is used as is; otherwise the fetched one is used and
     * cached when there is one. With a history and rates the modal gets the
     * chart, otherwise the error. The modal is open and no longer loading.
     */
    method HandleComparePrice(item: SavedItem, fetched: Option<seq<Sample>>,
                              dateOf: int -> string, today: string)
      modifies this`isModalLoading, this`isModalOpen, this`modalData, this`historyCache
      ensures isModalOpen && !isModalLoading
      ensures item.currency in old(historyCache) ==> historyCache == old(historyCache)
      ensures item.currency !in old(historyCache) ==>
        historyCache == if fetched.Some? then old(historyCache)[item.currency := fetched.value]
                        else old(historyCache)
      ensures var history := if item.currency in old(historyCache)
                             then Some(old(historyCache)[item.currency]) else fetched;
        modalData == Some(
          if history.Some? && btcPrices.Some?
          then ChartData(item.name, ChartPoints(item.price, history.value, btcPrices.value,
                                                dateOf, today, item.currency))
          else ErrorData(FetchError))
      ensures !LegacyHistoryModal.RenderContent(isModalLoading, modalData).Crash?
    {
      isModalLoading := true;
      isModalOpen := true;
      modalData := None;

      var priceHistory: Option<seq<Sample>>;
      if item.currency in historyCache {
        priceHistory := Some(historyCache[item.currency]);
      } else {
        priceHistory := fetched;
        if fetched.Some? {
          historyCache := historyCache[item.currency := fetched.value];
        }
      }

      if priceHistory.Some? && btcPrices.Some? {
        var chart := ChartPoints(item.price, priceHistory.value, btcPrices.value,
                                 dateOf, today, item.currency);
        modalData := Some(ChartData(item.name, chart));
      } else {
        modalData := Some(ErrorData(FetchError));
      }
      isModalLoading := false;
    }
  }
}
