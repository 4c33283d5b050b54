/**
 * The inline editor of a saved item (src/components/portfolio/EditItemForm.jsx):
 * its field cells, the currency handler that may request a price, and the
 * validate-and-merge that produces the edited record.
 */
module EditItemForm {
  import opened Wrappers
  import opened Records
  import Text

  /**
   * `handleSave`'s test and merge: refused when the trimmed name is empty or
   * the price is empty or not positive; otherwise the original record with the
   * five edited fields written over it.
   */
  function Merge(item: SavedItem, name: string, price: Option<real>, currency: string,
                 category: string, currentSats: int): (r: Option<SavedItem>)
    ensures r.None? <==> Text.TrimsToEmpty(name) || price.None? || price.value <= 0.0
    ensures r.Some? ==>
      r.value.name == name && r.value.price == price.value && r.value.currency == currency
      && r.value.category == category && r.value.currentSats == Some(currentSats)
      && r.value.id == item.id && r.value.sats == item.sats && r.value.dateAdded == item.dateAdded
  {
    if Text.TrimsToEmpty(name) || price.None? || price.value <= 0.0 then None
    else Some(item.(name := name, price := price.value, currency := currency,
                    category := category, currentSats := Some(currentSats)))
  }

  /** Saving the form unedited gives back the record, once its missing `currentSats` reads as 0. */
  lemma MergeUnedited(item: SavedItem)
    requires !Text.TrimsToEmpty(item.name) && item.price > 0.0
    ensures Merge(item, item.name, Some(item.price), item.currency, item.category,
                  item.currentSats.GetOr(0))
      == Some(item.(currentSats := Some(item.currentSats.GetOr(0))))
  {
  }

  class Form {
    const item: SavedItem
    var itemName: string
    /** The number input: empty, or the number typed. */
    var price: Option<real>
    var currency: string
    var category: string
    var currentSats: int

    /** The fields start from the item's own, with no category as '' and no `currentSats` as 0. */
    constructor (item: SavedItem)
      ensures this.item == item
      ensures itemName == item.name && price == Some(item.price) && currency == item.currency
      ensures category == item.category && currentSats == item.currentSats.GetOr(0)
    {
      this.item := item;
      itemName := item.name;
      price := Some(item.price);
      currency := item.currency;
      category := item.category;
      currentSats := item.currentSats.GetOr(0);
    }

    /**
     * `handleCurrencyChange`: store the lower-cased code; ask for its price
     * (returned as the code to fetch) only when a supported list is known,
     * holds the code, and a fetcher is present.
     */
    method HandleCurrencyChange(text: string, supported: Option<seq<string>>, canFetch: bool)
      returns (fetch: Option<string>)
      modifies this`currency
      ensures currency == Text.Lower(text)
      ensures fetch.Some? <==> supported.Some? && Text.Lower(text) in supported.value && canFetch
      ensures fetch.Some? ==> fetch.value == currency
    {
      currency := Text.Lower(text);
      if supported.Some? && currency in supported.value && canFetch {
        fetch := Some(currency);
      } else {
        fetch := None;
      }
    }

    /** `handleSave`: the record handed to `onSave`, or nothing when the fields are refused. */
    method HandleSave() returns (saved: Option<SavedItem>)
      ensures saved.None? <==> Text.TrimsToEmpty(itemName) || price.None? || price.value <= 0.0
      ensures saved == Merge(item, itemName, price, currency, category, currentSats)
    {
      saved := Merge(item, itemName, price, currency, category, currentSats);
    }
  }
}
