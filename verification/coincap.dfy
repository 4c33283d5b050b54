/**
 * The CoinCap provider (src/api/providers/coincap.js): a USD-only price, a
 * fixed currency list, and a daily history over a window ending now.
 */
module CoinCapProvider {
  import opened Wrappers
  import opened Records
  import Http

  const SupportedCurrencies: seq<string> := ["usd", "eur", "sek", "dkk", "thb"]
  const DefaultDays: int := 30
  /** `24 * 60 * 60 * 1000` */
  const DayMs: int := 24 * 60 * 60 * 1000

  /**
   * `fetchBitcoinPrices` given the reply (`body`: the parsed `data.priceUsd`,
   * absent when the reply has no `data`). The status is not checked.
   */
  function FetchBitcoinPrices(response: Http.Response<real>): (r: Option<map<string, real>>)
    ensures r.Some? <==> response.Reply? && response.body.Some?
    ensures r.Some? ==> r.value.Keys == {"usd"} && r.value["usd"] == response.body.value
  {
    if response.Reply? && response.body.Some? then Some(map["usd" := response.body.value]) else None
  }

  /** `fetchSupportedCurrencies`: the fixed five. */
  function FetchSupportedCurrencies(): (r: seq<string>)
    ensures r == SupportedCurrencies
  {
    SupportedCurrencies
  }

  /** The prices cover only the first supported currency, USD. */
  lemma PricesCoverOnlyUsd(response: Http.Response<real>)
    ensures var r := FetchBitcoinPrices(response);
      r.Some? ==> forall c :: c in FetchSupportedCurrencies() ==> (c in r.value <==> c == FetchSupportedCurrencies()[0])
  {
  }

  /** `[start, end]`: `end = Date.now()` and `start = end - days * 24 * 60 * 60 * 1000`. */
  function Window(now: int, days: int): (w: (int, int))
    ensures w.1 == now && w.1 - w.0 == days * DayMs
  {
    (now - days * DayMs, now)
  }

  /** The window runs forward exactly when `days` is not negative; the default is 30 days. */
  lemma WindowOrder(now: int, days: int)
    ensures Window(now, days).0 <= Window(now, days).1 <==> days >= 0
    ensures Window(now, DefaultDays).0 == now - 2592000000
  {
  }

  /** One element of the history's `data` array. */
  datatype HistoryPoint = HistoryPoint(time: int, priceUsd: real)

  /** `json.data.map(item => [item.time, parseFloat(item.priceUsd)])` */
  function ToSamples(points: seq<HistoryPoint>): (r: seq<Sample>)
    ensures |r| == |points|
    ensures forall i :: 0 <= i < |points| ==> r[i].time == points[i].time && r[i].price == points[i].priceUsd
    decreases |points|
  {
    if |points| == 0 then []
    else ToSamples(points[..|points| - 1]) + [Sample(points[|points| - 1].time, points[|points| - 1].priceUsd)]
  }

  /**
   * `fetchBitcoinPriceHistoryRange` given the reply (`body`: the decoded
   * `data` array, absent when it is missing). Prices are in USD whatever the
   * currency asked for.
   */
  function FetchBitcoinPriceHistoryRange(response: Http.Response<seq<HistoryPoint>>): (r: Option<seq<Sample>>)
    ensures r.Some? <==> response.Reply? && Http.IsOk(response.status) && response.body.Some?
    ensures r.Some? ==> r.value == ToSamples(response.body.value)
  {
    if response.Reply? && Http.IsOk(response.status) && response.body.Some?
    then Some(ToSamples(response.body.value))
    else None
  }

  /** The mapping keeps order: mapping a concatenation maps each part. */
  lemma {:induction false} ToSamplesConcat(a: seq<HistoryPoint>, b: seq<HistoryPoint>)
    ensures ToSamples(a + b) == ToSamples(a) + ToSamples(b)
  {
    var l := ToSamples(a + b);
    var r := ToSamples(a) + ToSamples(b);
    assert |l| == |r|;
    forall i | 0 <= i < |l| ensures l[i] == r[i] {
      if i < |a| {
        assert (a + b)[i] == a[i];
      } else {
        assert (a + b)[i] == b[i - |a|];
      }
    }
  }
}
