/**
 * The older saved list (src/components/SavedItemsList.jsx): the totals over
 * every record, with no search, and the two list states.
 */
module LegacySavedItemsList {
  import opened Records
  import opened Seqs
  import Portfolio

  /** `totalSats` and `fiatTotals` over the whole list, in the key order of first appearance. */
  method Totals(items: seq<SavedItem>) returns (totalSats: int, keys: seq<string>, totals: map<string, real>)
    ensures totalSats == TotalSats(items)
    ensures keys == Distinct(Portfolio.Currencies(items))
    ensures forall c :: c in totals <==> c in keys
    ensures forall c :: c in totals ==> totals[c] == Portfolio.PricesIn(items, c)
  {
    totalSats := TotalSats(items);
    keys, totals := Portfolio.FiatTotals(items);
  }

  /** The older list's totals are the dashboard's totals under an empty search. */
  lemma SameAsUnfilteredDashboard(items: seq<SavedItem>)
    ensures TotalSats(items) == TotalSats(Portfolio.Filtered(items, ""))
    ensures Distinct(Portfolio.Currencies(items)) == Distinct(Portfolio.Currencies(Portfolio.Filtered(items, "")))
  {
    Portfolio.FilteredSpec(items, "");
  }

  /**
   * "Clear All" is offered for a non-empty list; the empty message below is
   * shown for an empty one, so exactly one of the two shows.
   */
  predicate ShowsClearAll(items: seq<SavedItem>) {
    |items| > 0
  }

  /** "Your list is empty." is shown for an empty list, and then "Clear All" is not. */
  predicate ShowsEmptyMessage(items: seq<SavedItem>) {
    |items| == 0
  }
}
