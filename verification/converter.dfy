/**
 * The two-way converter (src/components/converter/Converter.jsx): fiat to
 * sats, or sats to fiat, at the current rate for the chosen currency, and the
 * "add to list" that stores the last result.
 */
module Converter {
  import opened Wrappers
  import opened Records
  import Sats
  import SavedItemsStore

  datatype Mode = FiatToSats | SatsToFiat

  /** The amount field as text: empty, a numeral (its value), or text that is not a number. */
  datatype Entry = Blank | Numeral(value: real) | Garbage

  /** The `result` object. `fiat` is present in sats-to-fiat mode only; `price` is the amount entered. */
  datatype Conversion = Conversion(
    sats: int,
    fiat: Option<real>,
    name: string,
    price: real,
    currency: string,
    category: string,
    mode: Mode)

  /** `itemName || 'Something'` */
  function DisplayName(name: string): (n: string)
    ensures n != ""
    ensures name != "" ==> n == name
  {
    if name == "" then "Something" else name
  }

  /** The guard of `calculateSats`: there is a rate map, a positive amount, and a non-zero rate for the currency. */
  predicate Computable(btcPrices: Option<map<string, real>>, amount: Entry, currency: string) {
    btcPrices.Some? && amount.Numeral? && amount.value > 0.0 && HasRate(btcPrices, currency)
  }

  /** `calculateSats` without the state write: the conversion in the chosen mode, or nothing. */
  function Convert(btcPrices: Option<map<string, real>>, amount: Entry, name: string,
                   currency: string, category: string, mode: Mode): (r: Option<Conversion>)
    ensures r.None? <==> !Computable(btcPrices, amount, currency)
    ensures r.Some? ==>
      var rate := btcPrices.value[currency];
      r.value.name == DisplayName(name) && r.value.price == amount.value
      && r.value.currency == currency && r.value.category == category && r.value.mode == mode
      && (mode == FiatToSats ==> r.value.sats == Sats.SatsFor(amount.value, rate) && r.value.fiat == None)
      && (mode == SatsToFiat ==>
            r.value.sats == Sats.Round(amount.value)
            && r.value.fiat == Some(Sats.FiatFor(amount.value, rate)))
  {
    if !Computable(btcPrices, amount, currency) then None
    else
      var rate := btcPrices.value[currency];
      match mode
      case FiatToSats =>
        Some(Conversion(Sats.SatsFor(amount.value, rate), None, DisplayName(name),
                        amount.value, currency, category, mode))
      case SatsToFiat =>
        Some(Conversion(Sats.Round(amount.value), Some(Sats.FiatFor(amount.value, rate)),
                        DisplayName(name), amount.value, currency, category, mode))
  }

  /** What `addItemToList` receives: the result's record fields (it has no `currentSats`). */
  function DraftOf(c: Conversion): (d: Draft)
    ensures d.name == c.name && d.price == c.price && d.currency == c.currency
    ensures d.sats == c.sats && d.category == c.category && d.currentSats == None
  {
    Draft(c.name, c.price, c.currency, c.sats, c.category, None)
  }

  /**
   * Converting a fiat amount to sats and then converting that sats amount back
   * to fiat gives the whole number of sats back in the sats field.
   */
  lemma ModesRoundTrip(btcPrices: Option<map<string, real>>, price: real, name: string,
                       currency: string, category: string)
    requires Computable(btcPrices, Numeral(price), currency)
    ensures var there := Convert(btcPrices, Numeral(price), name, currency, category, FiatToSats).value;
      there.sats > 0 ==>
        var back := Convert(btcPrices, Numeral(there.sats as real), name, currency, category, SatsToFiat).value;
        back.sats == there.sats
        && Sats.SatsFor(back.fiat.value, btcPrices.value[currency]) == there.sats
  {
    var rate := btcPrices.value[currency];
    var s := Sats.SatsFor(price, rate);
    if s > 0 {
      Sats.RoundWhole(s);
      Sats.SatsFiatRoundTrip(s as real, rate);
    }
  }

  /** The tests' rates. */
  function TestRates(): Option<map<string, real>> {
    Some(map["usd" := 50000.0, "eur" := 45000.0])
  }

  /** 4 USD at 50,000 USD per bitcoin is 8,000 sats. */
  lemma FiatToSatsExample()
    ensures Convert(TestRates(), Numeral(4.0), "A cup of coffee", "usd", "", FiatToSats)
      == Some(Conversion(8000, None, "A cup of coffee", 4.0, "usd", "", FiatToSats))
  {
    assert Sats.SatsFor(4.0, 50000.0) == 8000;
  }

  /** 100,000,000 sats at 50,000 USD per bitcoin is 50,000.00 USD. */
  lemma SatsToFiatExample()
    ensures Convert(TestRates(), Numeral(100000000.0), "", "usd", "", SatsToFiat)
      == Some(Conversion(100000000, Some(50000.0), "Something", 100000000.0, "usd", "", SatsToFiat))
  {
    Sats.RoundWhole(100000000);
  }

  /** No rate map, an empty, non-numeric or non-positive amount, or an unknown currency gives no result. */
  lemma RefusedInputs(name: string, category: string, mode: Mode)
    ensures Convert(None, Numeral(4.0), name, "usd", category, mode) == None
    ensures Convert(TestRates(), Blank, name, "usd", category, mode) == None
    ensures Convert(TestRates(), Garbage, name, "usd", category, mode) == None
    ensures Convert(TestRates(), Numeral(0.0), name, "usd", category, mode) == None
    ensures Convert(TestRates(), Numeral(4.0), name, "sek", category, mode) == None
  {
  }

  class Panel {
    var itemName: string
    var price: Entry
    var currency: string
    var category: string
    var result: Option<Conversion>
    var mode: Mode

    /** "A cup of coffee" at 4 USD, fiat to sats, no category and no result yet. */
    constructor ()
      ensures itemName == "A cup of coffee" && price == Numeral(4.0) && currency == "usd"
      ensures category == "" && result == None && mode == FiatToSats
    {
      itemName := "A cup of coffee";
      price := Numeral(4.0);
      currency := "usd";
      category := "";
      result := None;
      mode := FiatToSats;
    }

    /** `calculateSats`: replace the result with the conversion of the current fields. */
    method CalculateSats(btcPrices: Option<map<string, real>>)
      modifies this`result
      ensures result == Convert(btcPrices, price, itemName, currency, category, mode)
    {
      result := Convert(btcPrices, price, itemName, currency, category, mode);
    }

    /** `handleAddToList`: with a result, store it and clear the category; without one, nothing. */
    method HandleAddToList(store: SavedItemsStore.Store, now: int, isoNow: string)
      modifies store`items, this`category
      ensures old(result).Some? ==>
        store.items == old(store.items) + [SavedItemsStore.NewRecord(DraftOf(old(result).value), now, isoNow)]
        && category == ""
      ensures old(result).None? ==> store.items == old(store.items) && category == old(category)
    {
      if result.Some? {
        store.AddItemToList(DraftOf(result.value), now, isoNow);
        category := "";
      }
    }
  }
}
