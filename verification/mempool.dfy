/**
 * The Mempool.space provider (src/api/providers/mempool.js): its fixed
 * currency list and the projection of the upper-case price response onto it.
 */
module MempoolProvider {
  import opened Wrappers
  import opened Records
  import opened Seqs
  import Text

  const SupportedCurrencies: seq<string> := ["usd", "eur", "gbp", "cad", "chf", "aud", "jpy"]

  /** The price map the projection yields: each listed currency whose upper-case key holds a truthy rate. */
  ghost function Projected(data: map<string, real>): map<string, real> {
    map c | c in SupportedCurrencies && Text.Upper(c) in data && data[Text.Upper(c)] != 0.0
      :: data[Text.Upper(c)]
  }

  /**
   * `fetchBitcoinPrices` once the response is decoded (`None`: the request or
   * the decoding failed): copy `data[KEY]` to `prices[key]` for every listed
   * currency whose entry is truthy.
   */
  method FetchBitcoinPrices(response: Option<map<string, real>>) returns (prices: Option<map<string, real>>)
    ensures prices.None? <==> response.None?
    ensures prices.Some? ==> prices.value == Projected(response.value)
  {
    if response.None? {
      return None;
    }
    var data := response.value;
    var acc: map<string, real> := map[];
    var k := 0;
    while k < |SupportedCurrencies|
      invariant 0 <= k <= |SupportedCurrencies|
      invariant forall c :: c in acc <==>
        c in SupportedCurrencies[..k] && Text.Upper(c) in data && data[Text.Upper(c)] != 0.0
      invariant forall c :: c in acc ==> acc[c] == data[Text.Upper(c)]
    {
      var currency := SupportedCurrencies[k];
      var key := Text.Upper(currency);
      assert SupportedCurrencies[..k + 1] == SupportedCurrencies[..k] + [currency];
      if key in data && data[key] != 0.0 {
        acc := acc[currency := data[key]];
      }
      k := k + 1;
    }
    assert SupportedCurrencies[..k] == SupportedCurrencies;
    ProjectedByKeys(acc, data);
    return Some(acc);
  }

  /** A map with the projection's keys and values is the projection. */
  lemma ProjectedByKeys(acc: map<string, real>, data: map<string, real>)
    requires forall c :: c in acc <==>
      c in SupportedCurrencies && Text.Upper(c) in data && data[Text.Upper(c)] != 0.0
    requires forall c :: c in acc ==> acc[c] == data[Text.Upper(c)]
    ensures acc == Projected(data)
  {
  }

  /**
   * Every key of the result is a listed currency holding the rate under its
   * upper-case key; currencies absent or zero in the response are left out.
   */
  lemma ProjectedSpec(data: map<string, real>)
    ensures forall c :: c in Projected(data) ==> c in SupportedCurrencies
    ensures forall c :: c in SupportedCurrencies ==>
      (c in Projected(data) <==> Text.Upper(c) in data && data[Text.Upper(c)] != 0.0)
    ensures forall c :: c in Projected(data) ==> Projected(data)[c] == data[Text.Upper(c)]
  {
  }

  /** Keys of the response other than the listed ones in upper case make no difference. */
  lemma ExtraKeysIgnored(d1: map<string, real>, d2: map<string, real>)
    requires forall c :: c in SupportedCurrencies ==>
      (Text.Upper(c) in d1 <==> Text.Upper(c) in d2)
      && (Text.Upper(c) in d1 ==> d1[Text.Upper(c)] == d2[Text.Upper(c)])
    ensures Projected(d1) == Projected(d2)
  {
  }

  /** The listed currencies are distinct lower-case codes, so each maps back from its upper-case key. */
  lemma SupportedCurrenciesSpec()
    ensures NoDuplicates(SupportedCurrencies)
    ensures forall c :: c in SupportedCurrencies ==> Text.IsLowerAlpha(c) && Text.Lower(Text.Upper(c)) == c
  {
    forall c | c in SupportedCurrencies
      ensures Text.IsLowerAlpha(c) && Text.Lower(Text.Upper(c)) == c
    {
      Text.UpperLowerRoundTrip(c);
    }
  }

  /** `fetchSupportedCurrencies`: the fixed list. */
  function FetchSupportedCurrencies(): (r: seq<string>)
    ensures r == SupportedCurrencies
  {
    SupportedCurrencies
  }

  /** The supported list names exactly the currencies a price map can hold: each one does, given its rate. */
  lemma SupportedMatchesPrices(c: string)
    ensures c in FetchSupportedCurrencies() <==> c in Projected(map[Text.Upper(c) := 1.0])
  {
  }

  /** `fetchBitcoinPriceHistoryRange`: this provider has no history. */
  function FetchBitcoinPriceHistoryRange(): (r: Option<seq<Sample>>)
    ensures r.None?
  {
    None
  }
}
