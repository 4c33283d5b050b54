/**
 * The older converter (src/components/Converter.jsx): fiat to sats only. Its
 * guard checks for a rate map and a positive amount but not for a rate in the
 * chosen currency; `CalculateAsWritten` models that code, `Calculate` the
 * guarded conversion the rest of the model uses.
 */
module LegacyConverter {
  import opened Wrappers
  import opened JsNumber
  import opened Records
  import Sats
  import Converter
  import LegacyApp

  /** The `result` object as the code builds it, with `sats` as a JavaScript number. */
  datatype RawResult = RawResult(sats: Num, name: string, price: real, currency: string)

  /** The `result` object with a whole number of sats. */
  datatype Result = Result(sats: int, name: string, price: real, currency: string)

  /** `btcPrices[currency]`: the rate, or `undefined` (NaN in arithmetic). */
  function RateOf(btcPrices: map<string, real>, currency: string): (r: Num)
    ensures r.NaN? <==> currency !in btcPrices
    ensures r.Finite? ==> r.v == btcPrices[currency]
  {
    if currency in btcPrices then Finite(btcPrices[currency]) else NaN
  }

  /** `calculateSats` as written: no check that the currency has a rate. */
  function CalculateAsWritten(btcPrices: Option<map<string, real>>, amount: Converter.Entry,
                              name: string, currency: string): (r: Option<RawResult>)
    ensures r.None? <==> btcPrices.None? || !amount.Numeral? || amount.value <= 0.0
    ensures r.Some? ==>
      r.value.name == Converter.DisplayName(name) && r.value.price == amount.value
      && r.value.currency == currency
      && r.value.sats == Round(Scale(Div(Finite(amount.value), RateOf(btcPrices.value, currency)), 100000000.0))
  {
    if btcPrices.None? || !amount.Numeral? || amount.value <= 0.0 then None
    else
      var rate := RateOf(btcPrices.value, currency);
      Some(RawResult(Round(Scale(Div(Finite(amount.value), rate), 100000000.0)),
                     Converter.DisplayName(name), amount.value, currency))
  }

  /**
   * A currency missing from the rate map still yields a result, whose sats are
   * NaN: 4 EUR against a map holding only USD.
   */
  lemma MissingRateGivesNaN()
    ensures var r := CalculateAsWritten(Some(map["usd" := 50000.0]), Converter.Numeral(4.0),
                                        "A cup of coffee", "eur");
      r.Some? && r.value.sats.NaN?
  {
  }

  /** A zero rate yields a result too, with infinitely many sats. */
  lemma ZeroRateGivesInfinity()
    ensures var r := CalculateAsWritten(Some(map["usd" := 0.0]), Converter.Numeral(4.0),
                                        "A cup of coffee", "usd");
      r.Some? && r.value.sats.PosInf?
  {
  }

  /** `calculateSats` with the rate check the newer converter has: a whole number of sats or no result. */
  function Calculate(btcPrices: Option<map<string, real>>, amount: Converter.Entry,
                     name: string, currency: string): (r: Option<Result>)
    ensures r.None? <==> !Converter.Computable(btcPrices, amount, currency)
    ensures r.Some? ==>
      r.value.sats == Sats.SatsFor(amount.value, btcPrices.value[currency])
      && r.value.name == Converter.DisplayName(name) && r.value.price == amount.value
      && r.value.currency == currency
  {
    if !Converter.Computable(btcPrices, amount, currency) then None
    else
      Some(Result(Sats.SatsFor(amount.value, btcPrices.value[currency]),
                  Converter.DisplayName(name), amount.value, currency))
  }

  /**
   * The guarded conversion refuses exactly the inputs whose written result
   * would not be a number of sats, and otherwise agrees with it; and it agrees
   * with the newer converter in fiat-to-sats mode.
   */
  lemma CalculateRefinesAsWritten(btcPrices: Option<map<string, real>>, amount: Converter.Entry,
                                  name: string, currency: string)
    ensures var raw := CalculateAsWritten(btcPrices, amount, name, currency);
      var r := Calculate(btcPrices, amount, name, currency);
      (r.None? <==> raw.None? || !raw.value.sats.Finite?)
      && (r.Some? ==> raw.value == RawResult(Finite(r.value.sats as real), r.value.name,
                                             r.value.price, r.value.currency))
    ensures var r := Calculate(btcPrices, amount, name, currency);
      var n := Converter.Convert(btcPrices, amount, name, currency, "", Converter.FiatToSats);
      (r.None? <==> n.None?)
      && (r.Some? ==> r.value.sats == n.value.sats && r.value.name == n.value.name
                      && r.value.price == n.value.price && r.value.currency == n.value.currency)
  {
  }

  /** The result as `addItemToList` receives it: no category and no `currentSats`. */
  function DraftOf(r: Result): (d: Draft)
    ensures d.name == r.name && d.price == r.price && d.currency == r.currency && d.sats == r.sats
    ensures d.category == "" && d.currentSats == None
  {
    Draft(r.name, r.price, r.currency, r.sats, "", None)
  }

  class Panel {
    var itemName: string
    var price: Converter.Entry
    var currency: string
    var result: Option<Result>

    /** "A cup of coffee" at 4 USD, no result yet. */
    constructor ()
      ensures itemName == "A cup of coffee" && price == Converter.Numeral(4.0) && currency == "usd"
      ensures result == None
    {
      itemName := "A cup of coffee";
      price := Converter.Numeral(4.0);
      currency := "usd";
      result := None;
    }

    method CalculateSats(btcPrices: Option<map<string, real>>)
      modifies this`result
      ensures result == Calculate(btcPrices, price, itemName, currency)
    {
      result := Calculate(btcPrices, price, itemName, currency);
    }

    /** `handleAddToList`: hand the result to the app's list, when there is one. */
    method HandleAddToList(app: LegacyApp.App, now: int, isoNow: string)
      modifies app`savedItems
      ensures result.Some? ==> app.savedItems == old(app.savedItems) + [Stamp(DraftOf(result.value), now, isoNow)]
      ensures result.None? ==> app.savedItems == old(app.savedItems)
    {
      if result.Some? {
        app.AddItemToList(DraftOf(result.value), now, isoNow);
      }
    }
  }
}
