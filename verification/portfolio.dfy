/**
 * The dashboard's aggregates (src/components/portfolio/SavedItemsList.jsx):
 * the search filter, the total in sats, the goal progress, the fiat totals per
 * currency, the currency of the purchasing-power chart and the goal editor.
 */
module Portfolio {
  import opened Wrappers
  import opened JsNumber
  import opened Records
  import opened Seqs
  import Text
  import SavedItemsStore

  /**
   * The search test: the lower-cased query occurs in the lower-cased name, in
   * the lower-cased category when there is one, or in the lower-cased currency.
   */
  predicate Matches(item: SavedItem, query: string) {
    var q := Text.Lower(query);
    Text.Includes(Text.Lower(item.name), q)
    || (item.category != "" && Text.Includes(Text.Lower(item.category), q))
    || Text.Includes(Text.Lower(item.currency), q)
  }

  /** `filteredItems` */
  function Filtered(items: seq<SavedItem>, query: string): seq<SavedItem> {
    Filter(items, (r: SavedItem) => Matches(r, query))
  }

  /**
   * The filter keeps exactly the matching records, keeps their order (filtering
   * a concatenation filters each part), and an empty query keeps everything.
   */
  lemma FilteredSpec(items: seq<SavedItem>, query: string)
    ensures forall r :: r in Filtered(items, query) <==> r in items && Matches(r, query)
    ensures forall a, b :: Filtered(a + b, query) == Filtered(a, query) + Filtered(b, query)
    ensures |Filtered(items, query)| <= |items|
    ensures query == "" ==> Filtered(items, query) == items
  {
    var p := (r: SavedItem) => Matches(r, query);
    forall r { FilterMembers(items, p, r); }
    forall a, b { FilterConcat(a, b, p); }
    FilterShorter(items, p);
    if query == "" {
      forall i | 0 <= i < |items| ensures p(items[i]) {
        Text.IncludesEmpty(Text.Lower(items[i].name));
      }
      FilterKeepsAll(items, p);
    }
  }

  /**
   * `Math.min((totalSats / satoshiGoal) * 100, 100)`. A zero goal divides by
   * zero: a positive total shows 100, a zero total NaN, a negative total -Infinity.
   */
  function Progress(totalSats: int, goal: real): (r: Num)
    ensures !Less(Finite(100.0), r) && !r.PosInf?
    ensures goal != 0.0 ==>
      r == Finite(var p := totalSats as real / goal * 100.0; if p < 100.0 then p else 100.0)
    ensures goal > 0.0 && totalSats >= 0 ==> r.Finite? && 0.0 <= r.v <= 100.0
    ensures goal == 0.0 ==>
      r == if totalSats > 0 then Finite(100.0) else if totalSats == 0 then NaN else NegInf
  {
    Min(Scale(Div(Finite(totalSats as real), Finite(goal)), 100.0), Finite(100.0))
  }

  function Currencies(items: seq<SavedItem>): (r: seq<string>)
    ensures |r| == |items| && forall i :: 0 <= i < |items| ==> r[i] == items[i].currency
  {
    seq(|items|, i requires 0 <= i < |items| => items[i].currency)
  }

  /** The sum of the prices of the records in currency `c`. */
  function PricesIn(items: seq<SavedItem>, c: string): real
    decreases |items|
  {
    if |items| == 0 then 0.0
    else
      var last := items[|items| - 1];
      PricesIn(items[..|items| - 1], c) + (if last.currency == c then last.price else 0.0)
  }

  /**
   * After the first `k` records: the accumulator's keys are the currencies met
   * so far in order of first appearance, each holding that currency's prices.
   */
  ghost predicate Accumulated(items: seq<SavedItem>, k: int, keys: seq<string>, totals: map<string, real>)
    requires 0 <= k <= |items|
  {
    && keys == Distinct(Currencies(items[..k]))
    && (forall c :: c in totals <==> c in keys)
    && (forall c :: c in totals ==> totals[c] == PricesIn(items[..k], c))
  }

  /** The first `k + 1` records' currencies are the first `k` ones' and the next record's. */
  lemma CurrenciesStep(items: seq<SavedItem>, k: int)
    requires 0 <= k < |items|
    ensures Currencies(items[..k + 1]) == Currencies(items[..k]) + [items[k].currency]
  {
  }

  /** A currency that is not among the first `k` records' currencies has no prices there. */
  lemma AbsentCurrency(items: seq<SavedItem>, k: int, c: string)
    requires 0 <= k <= |items| && c !in Distinct(Currencies(items[..k]))
    ensures PricesIn(items[..k], c) == 0.0
  {
    DistinctMembers(Currencies(items[..k]));
    assert forall i :: 0 <= i < k ==> Currencies(items[..k])[i] != c;
    PricesInAbsent(items[..k], c);
  }

  /** The prices of the first `k + 1` records: the next record's price joins its currency's sum. */
  lemma PricesInStep(items: seq<SavedItem>, k: int, d: string)
    requires 0 <= k < |items|
    ensures PricesIn(items[..k + 1], d) == PricesIn(items[..k], d) + (if items[k].currency == d then items[k].price else 0.0)
  {
    assert items[..k + 1][..k] == items[..k];
  }

  /** One record's step on the keys: a currency met for the first time is appended. */
  lemma AccumulateKeys(items: seq<SavedItem>, k: int, keys: seq<string>, keys': seq<string>)
    requires 0 <= k < |items| && keys == Distinct(Currencies(items[..k]))
    requires keys' == if items[k].currency in keys then keys else keys + [items[k].currency]
    ensures keys' == Distinct(Currencies(items[..k + 1]))
  {
    CurrenciesStep(items, k);
    DistinctSnoc(Currencies(items[..k]), items[k].currency);
  }

  /** One record's step on the totals: the record's price is added to its currency's entry. */
  lemma AccumulateTotals(items: seq<SavedItem>, k: int, keys: seq<string>, totals: map<string, real>,
                         totals': map<string, real>)
    requires 0 <= k < |items| && keys == Distinct(Currencies(items[..k]))
    requires forall c :: c in totals <==> c in keys
    requires forall c :: c in totals ==> totals[c] == PricesIn(items[..k], c)
    requires totals' == totals[items[k].currency :=
      (if items[k].currency in totals then totals[items[k].currency] else 0.0) + items[k].price]
    ensures forall c :: c in totals' ==> totals'[c] == PricesIn(items[..k + 1], c)
  {
    var c := items[k].currency;
    if c !in totals {
      AbsentCurrency(items, k, c);
    }
    forall d | d in totals' ensures totals'[d] == PricesIn(items[..k + 1], d) {
      PricesInStep(items, k, d);
    }
  }

  /**
   * One record's step: a currency met for the first time gets a key, and the
   * record's price is added to its currency's entry.
   */
  lemma AccumulateStep(items: seq<SavedItem>, k: int, keys: seq<string>, totals: map<string, real>,
                       keys': seq<string>, totals': map<string, real>)
    requires 0 <= k < |items| && Accumulated(items, k, keys, totals)
    requires keys' == if items[k].currency in totals then keys else keys + [items[k].currency]
    requires totals' == totals[items[k].currency :=
      (if items[k].currency in totals then totals[items[k].currency] else 0.0) + items[k].price]
    ensures Accumulated(items, k + 1, keys', totals')
  {
    AccumulateKeys(items, k, keys, keys');
    AccumulateTotals(items, k, keys, totals, totals');
  }

  /**
   * `fiatTotals`: one accumulator entry per currency, created at zero when
   * missing or falsy and then increased by each record's price. `keys` is the
   * object's key order, the order in which the entries were first created.
   */
  method FiatTotals(items: seq<SavedItem>) returns (keys: seq<string>, totals: map<string, real>)
    ensures keys == Distinct(Currencies(items))
    ensures forall c :: c in totals <==> c in keys
    ensures forall c :: c in totals ==> totals[c] == PricesIn(items, c)
  {
    keys := [];
    totals := map[];
    var k := 0;
    while k < |items|
      invariant 0 <= k <= |items|
      invariant Accumulated(items, k, keys, totals)
    {
      ghost var keys0, totals0 := keys, totals;
      var item := items[k];
      if item.currency !in totals || totals[item.currency] == 0.0 {
        if item.currency !in totals {
          keys := keys + [item.currency];
        }
        totals := totals[item.currency := 0.0];
      }
      totals := totals[item.currency := totals[item.currency] + item.price];
      AccumulateStep(items, k, keys0, totals0, keys, totals);
      k := k + 1;
    }
    assert items[..k] == items;
  }

  /** The fiat totals have one key per distinct currency among the records, and no other. */
  lemma FiatKeysSpec(items: seq<SavedItem>)
    ensures NoDuplicates(Distinct(Currencies(items)))
    ensures forall c :: c in Distinct(Currencies(items)) <==>
      exists i :: 0 <= i < |items| && items[i].currency == c
  {
    DistinctMembers(Currencies(items));
    forall c | c in Distinct(Currencies(items))
      ensures exists i :: 0 <= i < |items| && items[i].currency == c
    {
      var i := IndexOf(Currencies(items), c);
      assert items[i].currency == c;
    }
  }

  /** A currency no record uses has a zero total. */
  lemma {:induction false} PricesInAbsent(items: seq<SavedItem>, c: string)
    requires forall i :: 0 <= i < |items| ==> items[i].currency != c
    ensures PricesIn(items, c) == 0.0
    decreases |items|
  {
    if |items| > 0 {
      PricesInAbsent(items[..|items| - 1], c);
    }
  }

  /** `Object.keys(fiatTotals)[0] || 'usd'` */
  function ChartCurrency(keys: seq<string>): string {
    if |keys| > 0 && keys[0] != "" then keys[0] else "usd"
  }

  /**
   * The chart's currency is that of the first filtered record, or `usd` when no
   * record passes the filter (or the first has an empty currency).
   */
  lemma ChartCurrencyOfFiltered(items: seq<SavedItem>, query: string)
    ensures var f := Filtered(items, query);
      ChartCurrency(Distinct(Currencies(f)))
        == if |f| > 0 && f[0].currency != "" then f[0].currency else "usd"
  {
    var f := Filtered(items, query);
    if |f| > 0 {
      DistinctHead(Currencies(f));
    } else {
      assert Currencies(f) == [];
    }
  }

  /** The CLEAR control is offered for a non-empty list, filtered or not. */
  predicate ShowsClear(items: seq<SavedItem>) {
    |items| > 0
  }

  /** "No items found." is shown exactly when nothing passes the filter. */
  predicate ShowsEmptyMessage(items: seq<SavedItem>, query: string) {
    |Filtered(items, query)| == 0
  }

  /**
   * An empty list shows the message and no CLEAR control; with an empty query,
   * the message shows exactly when CLEAR is not offered.
   */
  lemma EmptyMessageAndClear(items: seq<SavedItem>, query: string)
    ensures !ShowsClear(items) ==> ShowsEmptyMessage(items, query)
    ensures query == "" ==> (ShowsEmptyMessage(items, query) <==> !ShowsClear(items))
  {
    FilteredSpec(items, query);
  }

  /** The goal widget's own state: whether the goal is being edited and the value typed so far. */
  class GoalEditor {
    var isEditingGoal: bool
    var tempGoal: real

    constructor (satoshiGoal: real)
      ensures !isEditingGoal && tempGoal == satoshiGoal
    {
      isEditingGoal := false;
      tempGoal := satoshiGoal;
    }

    method BeginEditing()
      modifies this`isEditingGoal
      ensures isEditingGoal
    {
      isEditingGoal := true;
    }

    method SetTempGoal(g: real)
      modifies this`tempGoal
      ensures tempGoal == g
    {
      tempGoal := g;
    }

    /** `handleUpdateGoal`: store the typed goal and leave editing mode. */
    method HandleUpdateGoal(store: SavedItemsStore.Store)
      modifies store`goal, this`isEditingGoal
      ensures store.goal == tempGoal && !isEditingGoal
      ensures store.items == old(store.items)
    {
      store.SetGoal(tempGoal);
      isEditingGoal := false;
    }
  }

  /** The three records of the dashboard's tests. */
  function TestItems(): seq<SavedItem> {
    [ SavedItem(1, "Coffee", 4.0, "usd", 10000, "", "", None),
      SavedItem(2, "Pizza", 20.0, "usd", 50000, "", "", None),
      SavedItem(3, "Book", 150.0, "sek", 25000, "", "", None) ]
  }

  /** The tests' total: 85,000 sats over the unfiltered list. */
  lemma TotalSatsExample()
    ensures TotalSats(Filtered(TestItems(), "")) == 85000
  {
    var t := TestItems();
    assert Filtered(t, "") == t by { FilteredSpec(t, ""); }
    assert t[..2][..1] == t[..1] && t[..1][..0] == [];
    assert TotalSats(t[..1]) == 10000;
    assert TotalSats(t[..2]) == 60000;
  }

  /** The tests' fiat totals: 24.00 USD and 150.00 SEK, in that key order. */
  lemma FiatTotalsExample()
    ensures Distinct(Currencies(TestItems())) == ["usd", "sek"]
    ensures PricesIn(TestItems(), "usd") == 24.0 && PricesIn(TestItems(), "sek") == 150.0
  {
    var t := TestItems();
    var cs := Currencies(t);
    assert cs == ["usd", "usd", "sek"];
    assert cs[..2] == ["usd", "usd"] && cs[..2][..1] == ["usd"] && cs[..2][..1][..0] == [];
    assert Distinct(cs[..2][..1]) == ["usd"];
    assert Distinct(cs[..2]) == ["usd"];
    assert t[..2][..1] == t[..1] && t[..1][..0] == [];
    assert PricesIn(t[..1], "usd") == 4.0 && PricesIn(t[..1], "sek") == 0.0;
    assert PricesIn(t[..2], "usd") == 24.0 && PricesIn(t[..2], "sek") == 0.0;
  }

  /** The tests' progress: 85,000 of a 100,000 goal is 85.0%. */
  lemma ProgressExample()
    ensures Progress(85000, 100000.0) == Finite(85.0)
  {
  }
}
