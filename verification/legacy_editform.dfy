/**
 * The older inline editor (src/components/EditItemForm.jsx): name, price and
 * currency only, the currency picked from a fixed list.
 */
module LegacyEditItemForm {
  import opened Wrappers
  import opened Records
  import Text
  import EditItemForm

  /** The `<select>` options. */
  const CurrencyChoices: seq<string> := ["usd", "eur", "sek", "dkk", "thb"]

  /** `handleSave`: refused as the newer form refuses; otherwise only name, price and currency change. */
  function Merge(item: SavedItem, name: string, price: Option<real>, currency: string): (r: Option<SavedItem>)
    ensures r.None? <==> Text.TrimsToEmpty(name) || price.None? || price.value <= 0.0
    ensures r.Some? ==>
      r.value.name == name && r.value.price == price.value && r.value.currency == currency
      && r.value.id == item.id && r.value.sats == item.sats && r.value.category == item.category
      && r.value.dateAdded == item.dateAdded && r.value.currentSats == item.currentSats
  {
    if Text.TrimsToEmpty(name) || price.None? || price.value <= 0.0 then None
    else Some(item.(name := name, price := price.value, currency := currency))
  }

  /**
   * The newer form, left at the item's own category and `currentSats`, saves the
   * same record except that a missing `currentSats` becomes 0.
   */
  lemma NewerFormAgrees(item: SavedItem, name: string, price: Option<real>, currency: string)
    ensures var older := Merge(item, name, price, currency);
      var newer := EditItemForm.Merge(item, name, price, currency, item.category, item.currentSats.GetOr(0));
      older.None? == newer.None?
      && (older.Some? ==> newer.value == older.value.(currentSats := Some(item.currentSats.GetOr(0))))
  {
  }

  class Form {
    const item: SavedItem
    var itemName: string
    var price: Option<real>
    var currency: string

    /** The fields start from the item's name, price and currency. */
    constructor (item: SavedItem)
      ensures this.item == item
      ensures itemName == item.name && price == Some(item.price) && currency == item.currency
    {
      this.item := item;
      itemName := item.name;
      price := Some(item.price);
      currency := item.currency;
    }

    /** The currency `<select>`: one of its five options. */
    method ChooseCurrency(c: string)
      requires c in CurrencyChoices
      modifies this`currency
      ensures currency == c && currency in CurrencyChoices
    {
      currency := c;
    }

    method HandleSave() returns (saved: Option<SavedItem>)
      ensures saved.None? <==> Text.TrimsToEmpty(itemName) || price.None? || price.value <= 0.0
      ensures saved == Merge(item, itemName, price, currency)
    {
      saved := Merge(item, itemName, price, currency);
    }
  }
}
