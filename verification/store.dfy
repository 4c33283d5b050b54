/**
 * The saved-items store (src/contexts/SavedItemsProvider.jsx): the persisted
 * list of items, the id being edited, the sats goal and the sort criteria,
 * with the operations the provider hands to the components.
 */
module SavedItemsStore {
  import opened Wrappers
  import opened Records
  import opened Seqs
  import Text
  import Sats

  const DefaultGoal: real := 1000000.0
  const DefaultSort: string := "dateAdded-desc"

  /** `prevItems.filter((item) => item.id !== itemId)` */
  function Without(items: seq<SavedItem>, id: int): seq<SavedItem> {
    Filter(items, (r: SavedItem) => r.id != id)
  }

  /** Removal drops exactly the records with that id and keeps the others, in order. */
  lemma WithoutSpec(items: seq<SavedItem>, id: int)
    ensures forall r :: r in Without(items, id) <==> r in items && r.id != id
    ensures forall a, b :: Without(a + b, id) == Without(a, id) + Without(b, id)
    ensures (forall i :: 0 <= i < |items| ==> items[i].id != id) ==> Without(items, id) == items
    ensures (exists i :: 0 <= i < |items| && items[i].id == id) ==> |Without(items, id)| < |items|
  {
    var p := (r: SavedItem) => r.id != id;
    forall r { FilterMembers(items, p, r); }
    forall a, b { FilterConcat(a, b, p); }
    if forall i :: 0 <= i < |items| ==> items[i].id != id {
      FilterKeepsAll(items, p);
    }
    if exists i :: 0 <= i < |items| && items[i].id == id {
      var i :| 0 <= i < |items| && items[i].id == id;
      FilterDropsSome(items, p, i);
    }
  }

  /** `prevItems.map((item) => item.id === u.id ? u : item)` */
  function Replace(items: seq<SavedItem>, u: SavedItem): seq<SavedItem>
    decreases |items|
  {
    if |items| == 0 then []
    else
      var last := items[|items| - 1];
      Replace(items[..|items| - 1], u) + [if last.id == u.id then u else last]
  }

  /** Replacing keeps the length, puts `u` where the id matches and leaves every other record. */
  lemma {:induction false} ReplaceSpec(items: seq<SavedItem>, u: SavedItem)
    ensures |Replace(items, u)| == |items|
    ensures forall i :: 0 <= i < |items| ==>
      Replace(items, u)[i] == if items[i].id == u.id then u else items[i]
    decreases |items|
  {
    if |items| > 0 {
      ReplaceSpec(items[..|items| - 1], u);
    }
  }

  /** The edited record with its sats recomputed at the current rate. */
  function Repriced(u: SavedItem, rate: real): (r: SavedItem)
    requires rate != 0.0
    ensures r.(sats := u.sats) == u
    ensures r.sats as real - 0.5 <= u.price / rate * Sats.SatsPerBtc < r.sats as real + 0.5
  {
    u.(sats := Sats.SatsFor(u.price, rate))
  }

  /** `{ ...item, id, dateAdded, currentSats: item.currentSats || 0 }` */
  function NewRecord(d: Draft, now: int, isoNow: string): (r: SavedItem)
    ensures r.id == now && r.dateAdded == isoNow
    ensures r.currentSats == Some(if d.currentSats.Some? then d.currentSats.value else 0)
    ensures r.name == d.name && r.price == d.price && r.currency == d.currency
    ensures r.sats == d.sats && r.category == d.category
  {
    Stamp(d, now, isoNow).(currentSats := Some(d.currentSats.GetOr(0)))
  }

  /** The categories offered for suggestions: every non-empty category once, first occurrence first. */
  function Categories(items: seq<SavedItem>): seq<string> {
    Distinct(NonEmptyCategories(items))
  }

  /** `items.map((item) => item.category).filter(Boolean)` */
  function NonEmptyCategories(items: seq<SavedItem>): seq<string> {
    Filter(seq(|items|, i requires 0 <= i < |items| => items[i].category), (c: string) => c != "")
  }

  lemma CategoriesSpec(items: seq<SavedItem>)
    ensures NoDuplicates(Categories(items))
    ensures forall c :: c in Categories(items) <==> c in NonEmptyCategories(items)
    ensures forall c :: c in Categories(items) <==>
      c != "" && exists i :: 0 <= i < |items| && items[i].category == c
    ensures forall i, j :: 0 <= i < j < |Categories(items)| ==>
      IndexOf(NonEmptyCategories(items), Categories(items)[i])
        < IndexOf(NonEmptyCategories(items), Categories(items)[j])
  {
    var all := seq(|items|, i requires 0 <= i < |items| => items[i].category);
    var named := NonEmptyCategories(items);
    DistinctMembers(named);
    DistinctFirstOccurrenceOrder(named);
    forall c ensures c in named <==> c in all && c != "" {
      FilterMembers(all, (c: string) => c != "", c);
    }
    forall c ensures c in all <==> exists i :: 0 <= i < |items| && items[i].category == c {
      if c in all {
        var i :| 0 <= i < |all| && all[i] == c;
        assert items[i].category == c;
      }
      if exists i :: 0 <= i < |items| && items[i].category == c {
        var i :| 0 <= i < |items| && items[i].category == c;
        assert all[i] == c;
      }
    }
  }

  /** Which field `sortCriteria` sorts on: the text before the first `-`. */
  datatype SortKey = ByName | BySats | ById

  function KeyOf(sortCriteria: string): (k: SortKey)
    ensures k == ByName <==> Text.Split(sortCriteria, '-')[0] == "name"
    ensures k == BySats <==> Text.Split(sortCriteria, '-')[0] == "sats"
  {
    var criteria := Text.Split(sortCriteria, '-')[0];
    if criteria == "name" then ByName else if criteria == "sats" then BySats else ById
  }

  /** The direction is ascending only when the text after the first `-` is exactly `asc`. */
  predicate Ascending(sortCriteria: string) {
    var parts := Text.Split(sortCriteria, '-');
    |parts| > 1 && parts[1] == "asc"
  }

  /** `const [criteria, direction] = sortCriteria.split('-')` on a criteria with one `-`. */
  lemma CriteriaAndDirection(criteria: string, direction: string)
    requires '-' !in criteria && '-' !in direction
    ensures KeyOf(criteria + "-" + direction)
      == if criteria == "name" then ByName else if criteria == "sats" then BySats else ById
    ensures Ascending(criteria + "-" + direction) <==> direction == "asc"
  {
    Text.SplitAtSeparator(criteria, direction, '-');
  }

  /** The default criteria sorts by date added, newest first. */
  lemma DefaultSortIsNewestFirst()
    ensures KeyOf(DefaultSort) == ById && !Ascending(DefaultSort)
  {
    CriteriaAndDirection("dateAdded", "desc");
    assert DefaultSort == "dateAdded" + "-" + "desc";
  }

  /** "sats-asc" sorts by sats, smallest first. */
  lemma SatsAscExample()
    ensures KeyOf("sats-asc") == BySats && Ascending("sats-asc")
  {
    CriteriaAndDirection("sats", "asc");
    assert "sats-asc" == "sats" + "-" + "asc";
  }

  /** "name-asc" sorts by name, A to Z. */
  lemma NameAscExample()
    ensures KeyOf("name-asc") == ByName && Ascending("name-asc")
  {
    CriteriaAndDirection("name", "asc");
    assert "name-asc" == "name" + "-" + "asc";
  }

  /** The comparator before the direction is applied. */
  function Compare(a: SavedItem, b: SavedItem, key: SortKey): int {
    match key
    case ByName => Text.Compare(a.name, b.name)
    case BySats => a.sats - b.sats
    case ById => a.id - b.id
  }

  /** `direction === 'asc' ? comparison : -comparison` */
  function Directed(a: SavedItem, b: SavedItem, key: SortKey, asc: bool): int {
    if asc then Compare(a, b, key) else -Compare(a, b, key)
  }

  lemma DirectedAntisymmetric(a: SavedItem, b: SavedItem, key: SortKey, asc: bool)
    ensures Directed(a, b, key, asc) == -Directed(b, a, key, asc)
  {
    if key == ByName { Text.CompareAntisymmetric(a.name, b.name); }
  }

  lemma DirectedTransitive(a: SavedItem, b: SavedItem, c: SavedItem, key: SortKey, asc: bool)
    requires Directed(a, b, key, asc) <= 0 && Directed(b, c, key, asc) <= 0
    ensures Directed(a, c, key, asc) <= 0
  {
    if key == ByName {
      if asc {
        Text.CompareTransitive(a.name, b.name, c.name);
      } else {
        Text.CompareAntisymmetric(a.name, b.name);
        Text.CompareAntisymmetric(b.name, c.name);
        Text.CompareAntisymmetric(a.name, c.name);
        Text.CompareTransitive(c.name, b.name, a.name);
      }
    }
  }

  /** Every record comes no later than the records after it under the directed comparator. */
  ghost predicate Ordered(s: seq<SavedItem>, key: SortKey, asc: bool) {
    forall i, j :: 0 <= i < j < |s| ==> Directed(s[i], s[j], key, asc) <= 0
  }

  /** `sorted.sort(comparator)` on a fresh copy: insertion sort by adjacent swaps. */
  method SortInPlace(a: array<SavedItem>, key: SortKey, asc: bool)
    modifies a
    ensures Ordered(a[..], key, asc)
    ensures multiset(a[..]) == old(multiset(a[..]))
  {
    var i := 0;
    while i < a.Length
      invariant 0 <= i <= a.Length
      invariant Ordered(a[..i], key, asc)
      invariant multiset(a[..]) == old(multiset(a[..]))
    {
      InsertNext(a, i, key, asc);
      i := i + 1;
    }
    assert a[..a.Length] == a[..];
  }

  /** Positions `..hi` are ordered, except that position `j` is left out. */
  ghost predicate OrderedExcept(s: seq<SavedItem>, hi: int, j: int, key: SortKey, asc: bool)
    requires hi < |s|
  {
    forall p, q :: 0 <= p < q <= hi && p != j && q != j ==> Directed(s[p], s[q], key, asc) <= 0
  }

  /** The element at `j` comes no later than each of the elements after it up to `hi`. */
  ghost predicate FirstOfRest(s: seq<SavedItem>, hi: int, j: int, key: SortKey, asc: bool)
    requires 0 <= j && hi < |s|
  {
    forall q :: j < q <= hi ==> Directed(s[j], s[q], key, asc) <= 0
  }

  /** Before any swap, the ordered prefix `..i` is ordered except for the new element at `i`. */
  lemma StartInsert(s: seq<SavedItem>, i: int, key: SortKey, asc: bool)
    requires 0 <= i < |s| && Ordered(s[..i], key, asc)
    ensures OrderedExcept(s, i, i, key, asc) && FirstOfRest(s, i, i, key, asc)
  {
    assert forall p :: 0 <= p < i ==> s[..i][p] == s[p];
  }

  /** An adjacent swap permutes the sequence. */
  lemma SwapPermutes(s: seq<SavedItem>, t: seq<SavedItem>, j: int)
    requires 0 < j < |s| && t == s[j - 1 := s[j]][j := s[j - 1]]
    ensures multiset(t) == multiset(s)
  {
  }

  /** One adjacent swap that moves a later-ordered element up keeps both facts, one place lower. */
  lemma SwapDown(s: seq<SavedItem>, t: seq<SavedItem>, hi: int, j: int, key: SortKey, asc: bool)
    requires 0 < j <= hi < |s| && |t| == |s|
    requires Directed(s[j - 1], s[j], key, asc) > 0
    requires t == s[j - 1 := s[j]][j := s[j - 1]]
    requires OrderedExcept(s, hi, j, key, asc) && FirstOfRest(s, hi, j, key, asc)
    ensures OrderedExcept(t, hi, j - 1, key, asc) && FirstOfRest(t, hi, j - 1, key, asc)
  {
    DirectedAntisymmetric(s[j - 1], s[j], key, asc);
  }

  /** Once the element at `j` is not ordered before its left neighbour, the whole prefix is ordered. */
  lemma Settled(s: seq<SavedItem>, hi: int, j: int, key: SortKey, asc: bool)
    requires 0 <= j <= hi < |s|
    requires j > 0 ==> Directed(s[j - 1], s[j], key, asc) <= 0
    requires OrderedExcept(s, hi, j, key, asc) && FirstOfRest(s, hi, j, key, asc)
    ensures Ordered(s[..hi + 1], key, asc)
  {
    forall p | 0 <= p < j ensures Directed(s[p], s[j], key, asc) <= 0 {
      if p < j - 1 { DirectedTransitive(s[p], s[j - 1], s[j], key, asc); }
    }
  }

  /** Sink `a[i]` into the ordered prefix `a[..i]`, so that `a[..i + 1]` is ordered. */
  method InsertNext(a: array<SavedItem>, i: int, key: SortKey, asc: bool)
    requires 0 <= i < a.Length
    requires Ordered(a[..i], key, asc)
    modifies a
    ensures Ordered(a[..i + 1], key, asc)
    ensures multiset(a[..]) == old(multiset(a[..]))
  {
    var j := i;
    StartInsert(a[..], i, key, asc);
    while j > 0 && Directed(a[j - 1], a[j], key, asc) > 0
      invariant 0 <= j <= i
      invariant multiset(a[..]) == old(multiset(a[..]))
      invariant OrderedExcept(a[..], i, j, key, asc)
      invariant FirstOfRest(a[..], i, j, key, asc)
    {
      ghost var before := a[..];
      a[j - 1], a[j] := a[j], a[j - 1];
      assert a[..] == before[j - 1 := before[j]][j := before[j - 1]];
      SwapPermutes(before, a[..], j);
      SwapDown(before, a[..], i, j, key, asc);
      j := j - 1;
    }
    Settled(a[..], i, j, key, asc);
  }

  /** What `updateItem` reports when it cannot update. */
  datatype UpdateOutcome = Updated | PriceNotAvailableYet | PricesUnavailable

  class Store {
    var items: seq<SavedItem>
    var goal: real
    var editingId: Option<int>
    var sortCriteria: string
    var satsMode: bool

    /** A store over empty storage: the defaults. */
    constructor ()
      ensures items == [] && goal == DefaultGoal && editingId == None
      ensures sortCriteria == DefaultSort && !satsMode
    {
      items := [];
      goal := DefaultGoal;
      editingId := None;
      sortCriteria := DefaultSort;
      satsMode := false;
    }

    /** `addItemToList`: append one record stamped with the clock's id and date. */
    method AddItemToList(d: Draft, now: int, isoNow: string)
      modifies this`items
      ensures items == old(items) + [NewRecord(d, now, isoNow)]
    {
      items := items + [NewRecord(d, now, isoNow)];
    }

    /** `removeItemFromList`: drop every record with this id. */
    method RemoveItemFromList(id: int)
      modifies this`items
      ensures items == Without(old(items), id)
    {
      items := Without(items, id);
    }

    /** `clearList`: empty the list; an empty list is left alone. */
    method ClearList()
      modifies this`items
      ensures items == []
      ensures old(items) == [] ==> unchanged(this)
    {
      if |items| > 0 {
        items := [];
      }
    }

    /**
     * `updateItem`: with a rate for the edited record's currency, replace the
     * record with that id by the edited one with its sats recomputed and stop
     * editing; without one, change nothing and report why.
     */
    method UpdateItem(u: SavedItem, btcPrices: Option<map<string, real>>, canFetch: bool)
      returns (outcome: UpdateOutcome)
      modifies this`items, this`editingId
      ensures !HasRate(btcPrices, u.currency) ==>
        items == old(items) && editingId == old(editingId)
        && outcome == (if canFetch then PriceNotAvailableYet else PricesUnavailable)
      ensures HasRate(btcPrices, u.currency) ==>
        outcome == Updated && editingId == None
        && items == Replace(old(items), Repriced(u, btcPrices.value[u.currency]))
    {
      if !HasRate(btcPrices, u.currency) {
        outcome := if canFetch then PriceNotAvailableYet else PricesUnavailable;
        return;
      }
      var rate := btcPrices.value[u.currency];
      items := Replace(items, Repriced(u, rate));
      editingId := None;
      outcome := Updated;
    }

    /** `importItems`: a list replaces the items wholesale; anything else is refused. */
    method ImportItems(newItems: Option<seq<SavedItem>>)
      modifies this`items
      ensures items == if newItems.Some? then newItems.value else old(items)
    {
      if newItems.Some? {
        items := newItems.value;
      }
    }

    method SetEditingId(id: Option<int>)
      modifies this`editingId
      ensures editingId == id
    {
      editingId := id;
    }

    method SetSortCriteria(criteria: string)
      modifies this`sortCriteria
      ensures sortCriteria == criteria
    {
      sortCriteria := criteria;
    }

    method SetGoal(g: real)
      modifies this`goal
      ensures goal == g
    {
      goal := g;
    }

    method SetSatsMode(on: bool)
      modifies this`satsMode
      ensures satsMode == on
    {
      satsMode := on;
    }

    /** `sortedItems`: the items, reordered by the sort criteria. */
    method SortedItems() returns (sorted: seq<SavedItem>)
      ensures multiset(sorted) == multiset(items)
      ensures Ordered(sorted, KeyOf(sortCriteria), Ascending(sortCriteria))
    {
      var s := items;
      var a := new SavedItem[|s|](i requires 0 <= i < |s| => s[i]);
      assert a[..] == s;
      SortInPlace(a, KeyOf(sortCriteria), Ascending(sortCriteria));
      sorted := a[..];
    }
  }
}
